/** The thresholds of the funding backtest as one ordered table of demands. */
module FundingGates {
  import opened Sequences
  import opened FundingTypes
  import opened FundingPosition

  datatype Demand = Above(value: real, limit: real) | AtLeast(value: real, limit: real) | AtMost(value: real, limit: real)

  predicate Met(d: Demand) {
    match d
    case Above(value, limit) => value > limit
    case AtLeast(value, limit) => value >= limit
    case AtMost(value, limit) => value <= limit
  }

  /** A missing break-even time is too long, unless any time is accepted. */
  function BreakEven(row: Row, cfg: Config): Demand {
    if cfg.maxBreakEvenHours >= HUGE then AtMost(0.0, 0.0)
    else if row.breakEvenHours.Some? then AtMost(row.breakEvenHours.value, cfg.maxBreakEvenHours)
    else AtMost(1.0, 0.0)
  }

  /** What a row and its rolling statistics must meet to be entered or held, in the order of the exit reasons. */
  function Demands(v: View, cfg: Config): seq<(string, Demand)> {
    var row, m := v.row, v.rolling;
    [ ("funding_not_positive", Above(OrElse(row.fundingRate, 0.0), cfg.minFundingRate)),
      ("spot_spread_wide", AtMost(OrElse(row.spotSpread, HUGE), cfg.maxSpotSpread)),
      ("perp_spread_wide", AtMost(OrElse(row.perpSpread, HUGE), cfg.maxPerpSpread)),
      ("basis_too_wide", AtMost(Abs(GetOr(row.basis, 0.0)), cfg.maxAbsBasis)),
      ("basis_below_min", AtLeast(GetOr(row.basis, -HUGE), cfg.minBasis)),
      ("score_below_min", AtLeast(OrElse(row.totalScore, -HUGE), cfg.minTotalScore)),
      ("expected_edge_below_min", AtLeast(GetOr(row.expectedCarry, -HUGE), cfg.minExpectedCarry)),
      ("risk_adjusted_edge_below_min", AtLeast(GetOr(m.riskAdjustedEdge, -HUGE), cfg.minRiskAdjustedEdge)),
      ("break_even_horizon_too_long", BreakEven(row, cfg)),
      ("funding_observations_below_min", AtLeast(m.fundingObservations as real, cfg.minFundingObservations as real)),
      ("funding_positive_ratio_below_min", AtLeast(GetOr(m.positiveRatio, 0.0), cfg.minPositiveRatio)),
      ("funding_persistence_score_below_min", AtLeast(GetOr(m.persistenceScore, -HUGE), cfg.minPersistenceScore)),
      ("regime_observations_below_min", AtLeast(m.regimeObservations as real, cfg.minRegimeObservations as real)),
      ("perp_volume_regime_low", AtLeast(GetOr(m.volumeAverage, 0.0), cfg.minVolume)),
      ("spot_top_liquidity_low", AtLeast(GetOr(row.spotTopNotional, 0.0), cfg.minSpotTopNotional)),
      ("spot_top_liquidity_regime_low", AtLeast(GetOr(m.spotTopAverage, 0.0), cfg.minSpotTopNotional)),
      ("basis_regime_unstable", AtMost(GetOr(m.basisStd, HUGE), cfg.maxBasisStd)),
      ("spot_spread_regime_wide", AtMost(GetOr(m.spotSpreadAverage, HUGE), cfg.maxAverageSpotSpread)),
      ("perp_spread_regime_wide", AtMost(GetOr(m.perpSpreadAverage, HUGE), cfg.maxAveragePerpSpread)) ]
  }

  /** The first demand that is not met, or their number when all are. */
  ghost predicate FirstUnmet(demands: seq<(string, Demand)>, k: nat) {
    && k <= |demands| && (forall j :: 0 <= j < k ==> Met(demands[j].1))
    && (k < |demands| ==> !Met(demands[k].1))
  }

  function Name(demands: seq<(string, Demand)>, k: nat): string { if k < |demands| then demands[k].0 else "" }

  lemma BreakEvenMet(row: Row, cfg: Config)
    ensures Met(BreakEven(row, cfg)) <==> BreakEvenWithin(row, cfg.maxBreakEvenHours)
  {
  }

  lemma EarlyReason(v: View, cfg: Config, k: nat)
    requires FirstUnmet(Demands(v, cfg), k) && k < 7
    ensures ExitReason(v, cfg) == Demands(v, cfg)[k].0
  {
    hide Abs, GetOr, OrElse, BreakEven, BreakEvenWithin;
    var d := Demands(v, cfg);
    var terms := [d[0], d[1], d[2], d[3], d[4], d[5], d[6]];
  }

  lemma MiddleReason(v: View, cfg: Config, k: nat)
    requires FirstUnmet(Demands(v, cfg), k) && 7 <= k < 13
    ensures ExitReason(v, cfg) == Demands(v, cfg)[k].0
  {
    BreakEvenMet(v.row, cfg);
    hide Abs, GetOr, OrElse, BreakEven, BreakEvenWithin;
    var d := Demands(v, cfg);
    var terms := [d[0], d[1], d[2], d[3], d[4], d[5], d[6], d[7], d[8], d[9], d[10], d[11], d[12]];
  }

  /** The reason to exit is the first demand not met, and there is none exactly when all are met. */
  lemma ReasonIsFirstUnmet(v: View, cfg: Config, k: nat)
    requires FirstUnmet(Demands(v, cfg), k)
    ensures ExitReason(v, cfg) == Name(Demands(v, cfg), k)
  {
    if k < 7 {
      EarlyReason(v, cfg, k);
    } else if k < 13 {
      MiddleReason(v, cfg, k);
    } else {
      LateReason(v, cfg, k);
    }
  }

  lemma LateReason(v: View, cfg: Config, k: nat)
    requires FirstUnmet(Demands(v, cfg), k) && k >= 13
    ensures ExitReason(v, cfg) == Name(Demands(v, cfg), k)
  {
    BreakEvenMet(v.row, cfg);
    hide Abs, GetOr, OrElse, BreakEven, BreakEvenWithin;
    var d := Demands(v, cfg);
    var terms := [d[0], d[1], d[2], d[3], d[4], d[5], d[6], d[7], d[8], d[9],
                  d[10], d[11], d[12], d[13], d[14], d[15], d[16], d[17], d[18]];
  }

  lemma SomeFirstUnmet(demands: seq<(string, Demand)>) returns (k: nat)
    ensures FirstUnmet(demands, k)
  {
    k := 0;
    while k < |demands| && Met(demands[k].1)
      invariant k <= |demands| && forall j :: 0 <= j < k ==> Met(demands[j].1)
    {
      k := k + 1;
    }
  }

  lemma NamesAreSomething(v: View, cfg: Config, k: nat)
    requires k < 19
    ensures |Demands(v, cfg)| == 19 && Demands(v, cfg)[k].0 != ""
  {
    hide Abs, GetOr, OrElse, BreakEven;
  }

  /** A row is entered exactly when it meets every demand and has the two quotes to trade at, and a held
      one is left exactly when it does not meet them all. */
  lemma EntryMeetsEveryDemand(v: View, cfg: Config)
    ensures var all := forall j :: 0 <= j < |Demands(v, cfg)| ==> Met(Demands(v, cfg)[j].1);
            && (ExitReason(v, cfg) == "" <==> all)
            && (EntryAllowed(v, cfg) <==> all && v.row.spotAsk.Some? && v.row.perpBid.Some?)
  {
    hide Demands, ExitReason, EntryAllowed, Met;
    var k := SomeFirstUnmet(Demands(v, cfg));
    NamesAreSomething(v, cfg, 0);
    ReasonIsFirstUnmet(v, cfg, k);
    EntryIsNoExit(v, cfg);
    if k < 19 { NamesAreSomething(v, cfg, k); }
  }
}
