/** What reading a zero as a missing value does to gates, openings and accruals (basis.py). */
module FundingZeros {
  import opened Sequences
  import opened FundingTypes
  import opened FundingPosition

  /** The four gate fields as the row gives them, with the same defaults for missing values only. */
  function AsGiven(row: Row): Read {
    Read(GetOr(row.fundingRate, 0.0), GetOr(row.totalScore, -HUGE), GetOr(row.spotSpread, HUGE), GetOr(row.perpSpread, HUGE))
  }

  /** A given zero that its threshold would admit and its default does not. A zero rate never counts: its
      default is zero. */
  predicate ZeroRefused(row: Row, cfg: Config) {
    || (row.totalScore == Some(0.0) && -HUGE < cfg.minTotalScore <= 0.0)
    || (row.spotSpread == Some(0.0) && 0.0 <= cfg.maxSpotSpread < HUGE)
    || (row.perpSpread == Some(0.0) && 0.0 <= cfg.maxPerpSpread < HUGE)
  }

  /** Exactly what the `or` defaults cost at the gates: an entry is allowed if and only if the row as given
      allows it and holds no such zero, and there is no reason to exit if and only if the row as given has
      none and holds no such zero. */
  lemma ZerosAtTheGates(v: View, cfg: Config)
    ensures EntryAllowed(v, cfg) <==> Gates(v, cfg, AsGiven(v.row)) && !ZeroRefused(v.row, cfg)
    ensures ExitReason(v, cfg) == "" <==> Reason(v, cfg, AsGiven(v.row)) == "" && !ZeroRefused(v.row, cfg)
  {
    hide Abs, BreakEvenWithin, Reason;
    GatesAreNoReason(v.(row := Quoted(v.row)), cfg, AsCoded(v.row));
    GatesAreNoReason(v.(row := Quoted(v.row)), cfg, AsGiven(v.row));
    QuotesGiveNoReason(v, cfg, AsCoded(v.row));
    QuotesGiveNoReason(v, cfg, AsGiven(v.row));
  }

  function Quoted(row: Row): Row { row.(spotAsk := Some(1.0), perpBid := Some(1.0)) }

  lemma QuotesGiveNoReason(v: View, cfg: Config, x: Read)
    ensures Reason(v.(row := Quoted(v.row)), cfg, x) == Reason(v, cfg, x)
  {
  }

  /** The two readings part exactly where a row that should pass holds such a zero. */
  lemma GatesAgreeIff(v: View, cfg: Config)
    ensures (EntryAllowed(v, cfg) <==> Gates(v, cfg, AsGiven(v.row)))
       <==> !(Gates(v, cfg, AsGiven(v.row)) && ZeroRefused(v.row, cfg))
  {
    hide Gates, ZeroRefused, EntryAllowed;
    ZerosAtTheGates(v, cfg);
  }

  /** A spot market without any spread is refused, and left if held, under every limit that a spread of
      zero meets. */
  lemma NoSpreadIsRefused(v: View, cfg: Config)
    requires v.row.spotSpread == Some(0.0) && 0.0 <= cfg.maxSpotSpread < HUGE
    ensures !EntryAllowed(v, cfg) && ExitReason(v, cfg) != ""
  {
    hide Gates, Reason, EntryAllowed, ExitReason;
    ZerosAtTheGates(v, cfg);
  }

  /** A position whose gates all pass but for that zero, for every such limit: the loss is real. */
  lemma PassingRowWithoutSpread(v: View, cfg: Config)
    requires Gates(v, cfg, AsGiven(v.row)) && 0.0 <= cfg.maxSpotSpread < HUGE
    ensures var zero := v.(row := v.row.(spotSpread := Some(0.0)));
            Gates(zero, cfg, AsGiven(zero.row)) && !EntryAllowed(zero, cfg)
  {
    hide Abs, BreakEvenWithin;
    var zero := v.(row := v.row.(spotSpread := Some(0.0)));
    assert BreakEvenWithin(zero.row, cfg.maxBreakEvenHours) == BreakEvenWithin(v.row, cfg.maxBreakEvenHours) by {
      BreakEvenReads(zero.row, v.row, cfg.maxBreakEvenHours);
    }
    assert AsGiven(zero.row) == AsGiven(v.row).(spotSpread := 0.0);
    assert 0.0 <= cfg.maxSpotSpread;
  }

  lemma BreakEvenReads(a: Row, b: Row, maxHours: real)
    requires a.breakEvenHours == b.breakEvenHours
    ensures BreakEvenWithin(a, maxHours) == BreakEvenWithin(b, maxHours)
  {
  }

  function OpenAsGiven(market: string, row: Row, cfg: Config): Position
    requires row.spotAsk.Some? && row.perpBid.Some?
  {
    OpenAt(market, row, cfg, GetOr(row.fundingInterval, 28_800.0))
  }

  /** Opening differs from the row as given exactly for a funding interval of zero, which becomes eight
      hours instead of the shortest one. A zero time or rate makes no difference: its default is zero. */
  lemma OpenAgreesIff(market: string, row: Row, cfg: Config)
    requires row.spotAsk.Some? && row.perpBid.Some?
    ensures Open(market, row, cfg) == OpenAsGiven(market, row, cfg) <==> row.fundingInterval != Some(0.0)
  {
    assert Open(market, row, cfg).interval == Max(OrElse(row.fundingInterval, 28_800.0), 1.0);
    assert OpenAsGiven(market, row, cfg).interval == Max(GetOr(row.fundingInterval, 28_800.0), 1.0);
  }

  function AccruedAsGiven(p: Position, row: Row): Position {
    AccruedAt(p, row, GetOr(row.ts, p.lastTs), GetOr(row.fundingInterval, Max(p.interval, 1.0)))
  }

  /** Accrual differs from the row as given exactly for a time of zero when the position was last seen at
      another time, and for an interval of zero when the position's own is longer than a second. */
  lemma AccrualAgreesIff(p: Position, row: Row)
    ensures Accrued(p, row) == AccruedAsGiven(p, row)
       <==> !(row.ts == Some(0.0) && p.lastTs != 0.0) && !(row.fundingInterval == Some(0.0) && p.interval > 1.0)
  {
    hide SettlementsDue, Payments, Later;
    assert Accrued(p, row).lastTs == OrElse(row.ts, p.lastTs) && AccruedAsGiven(p, row).lastTs == GetOr(row.ts, p.lastTs);
    assert Accrued(p, row).interval == Max(OrElse(row.fundingInterval, Max(p.interval, 1.0)), 1.0);
    assert AccruedAsGiven(p, row).interval == Max(GetOr(row.fundingInterval, Max(p.interval, 1.0)), 1.0);
  }
}
