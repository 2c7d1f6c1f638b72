/** When the list of a dislocation report is the top of everything the scan offered. */
module ReportTop {
  import opened Sequences
  import opened TopEvents
  import opened DislocationScan

  /** What line and symbol parsing let through. */
  ghost predicate FromFile(quotes: seq<Quote>) { forall q :: q in quotes ==> Parsed(q) && q.base != "" }

  /** Every scan with `n` candidate events reports the best of them, in order. */
  ghost predicate AlwaysTop(cfg: Config, n: nat) {
    forall quotes: seq<Quote> :: FromFile(quotes) && |ScanAll(cfg, quotes).offered| == n ==>
      ReportIsTop(ScanAll(cfg, quotes).offered, cfg.maxEvents)
  }

  // ---- Falling quotes ----

  const GATE_PRICE: Price := 1.0

  function GateQuote(base: string): Quote { Quote(Gateio, base, 0.0, GATE_PRICE, 1.0, GATE_PRICE, 1.0) }

  function MexcQuote(base: string, above: nat): Quote {
    var price: Price := 1.0 + above as real;
    Quote(Mexc, base, 0.0, price, 1.0, price, 1.0)
  }

  /** One Gate.io quote, then MEXC quotes whose prices fall towards it. */
  function FallingQuotes(base: string, top: nat, n: nat): seq<Quote>
    requires n <= top
  {
    if n == 0 then [GateQuote(base)] else FallingQuotes(base, top, n - 1) + [MexcQuote(base, top - n + 1)]
  }

  function Crossed(base: string, above: nat, cfg: Config): Event {
    Evaluate(GateQuote(base), MexcQuote(base, above), BuyGateioSellMexc, 0.0, cfg)
  }

  function FallingEvents(base: string, top: nat, n: nat, cfg: Config): (r: seq<Event>)
    requires n <= top
    ensures |r| == n
  {
    if n == 0 then [] else FallingEvents(base, top, n - 1, cfg) + [Crossed(base, top - n + 1, cfg)]
  }

  lemma {:induction false} FallingQuotesParse(base: string, top: nat, n: nat)
    requires n <= top && base != ""
    ensures FromFile(FallingQuotes(base, top, n))
  {
    if n > 0 { FallingQuotesParse(base, top, n - 1); }
  }

  lemma CrossedFacts(base: string, above: nat, cfg: Config)
    requires above > 0
    ensures Crossed(base, above, cfg).gross == 10_000.0 * above as real
    ensures Crossed(base, above, cfg).net == 10_000.0 * above as real - cfg.totalCostBps
    ensures Crossed(base, above, cfg).isFresh <==> 0.0 <= cfg.staleSec
    ensures Evaluate(MexcQuote(base, above), GateQuote(base), BuyMexcSellGateio, 0.0, cfg).gross < 0.0
  {
    CrossedMeansAbove(GATE_PRICE, MexcQuote(base, above).ask);
  }

  lemma OneOffered(cfg: Config, s: Scan, base: string, above: nat)
    requires cfg.staleSec >= 0.0 && above > 0
    requires (Gateio, base) in s.latest && s.latest[(Gateio, base)] == GateQuote(base)
    ensures var t := TakeQuote(cfg, s, MexcQuote(base, above));
            && t.offered == s.offered + [Crossed(base, above, cfg)]
            && (Gateio, base) in t.latest && t.latest[(Gateio, base)] == GateQuote(base)
  {
    CrossedFacts(base, above, cfg);
    hide Evaluate;
  }

  lemma {:induction false} FallingScan(cfg: Config, base: string, top: nat, n: nat)
    requires cfg.staleSec >= 0.0 && n <= top
    ensures var s := ScanAll(cfg, FallingQuotes(base, top, n));
            && s.offered == FallingEvents(base, top, n, cfg)
            && (Gateio, base) in s.latest && s.latest[(Gateio, base)] == GateQuote(base)
  {
    if n == 0 {
      assert [GateQuote(base)][..0] == [];
    } else {
      hide TakeQuote, Crossed;
      var front, q := FallingQuotes(base, top, n - 1), MexcQuote(base, top - n + 1);
      FallingScan(cfg, base, top, n - 1);
      assert (front + [q])[..|front|] == front;
      OneOffered(cfg, ScanAll(cfg, front), base, top - n + 1);
    }
  }

  lemma {:induction false} EventAt(base: string, top: nat, n: nat, cfg: Config, i: nat)
    requires i < n <= top
    ensures FallingEvents(base, top, n, cfg)[i] == Crossed(base, top - i, cfg)
  {
    if i < n - 1 { EventAt(base, top, n - 1, cfg, i); }
  }

  lemma EventsFall(base: string, top: nat, n: nat, cfg: Config)
    requires n <= top
    ensures Falling(FallingEvents(base, top, n, cfg))
  {
    var s := FallingEvents(base, top, n, cfg);
    hide FallingEvents, Crossed;
    forall i, j | 0 <= i < j < |s| ensures s[i].net > s[j].net {
      EventAt(base, top, n, cfg, i);
      EventAt(base, top, n, cfg, j);
      CrossedFacts(base, top - i, cfg);
      CrossedFacts(base, top - j, cfg);
    }
  }

  /** For every configuration with room and a stale limit that zero meets, every base and every other
      number of candidates, these quotes give a report that is not the top. */
  lemma FallingScanFails(cfg: Config, base: string, n: nat)
    requires cfg.maxEvents > 0 && cfg.staleSec >= 0.0 && base != "" && !JustTrimmed(n, cfg.maxEvents)
    ensures var quotes := FallingQuotes(base, n, n);
            && FromFile(quotes) && |ScanAll(cfg, quotes).offered| == n
            && !ReportIsTop(ScanAll(cfg, quotes).offered, cfg.maxEvents)
  {
    hide ReportIsTop, JustTrimmed, ScanAll, Falling;
    FallingQuotesParse(base, n, n);
    FallingScan(cfg, base, n, n);
    EventsFall(base, n, n, cfg);
    FallingReportFails(FallingEvents(base, n, n, cfg), cfg.maxEvents);
  }

  // ---- The other configurations ----

  lemma NoRoomIsTop(stream: seq<Event>, limit: int)
    requires limit <= 0
    ensures ReportIsTop(stream, limit)
  {
    NoLimitKeepsNothing(stream, limit);
  }

  lemma NothingIsFresh(buy: Quote, sell: Quote, direction: Direction, now: real, cfg: Config)
    requires cfg.staleSec < 0.0
    ensures !Evaluate(buy, sell, direction, now, cfg).isFresh
  {
  }

  lemma {:induction false} NothingIsOffered(cfg: Config, quotes: seq<Quote>)
    requires cfg.staleSec < 0.0
    ensures ScanAll(cfg, quotes).offered == []
  {
    if quotes != [] {
      var front, q := quotes[..|quotes| - 1], quotes[|quotes| - 1];
      NothingIsOffered(cfg, front);
      var s := ScanAll(cfg, front);
      var latest := s.latest[(q.venue, q.base) := q];
      if (Gateio, q.base) in latest && (Mexc, q.base) in latest {
        var gate, mexc := latest[(Gateio, q.base)], latest[(Mexc, q.base)];
        NothingIsFresh(mexc, gate, BuyMexcSellGateio, q.ts, cfg);
        NothingIsFresh(gate, mexc, BuyGateioSellMexc, q.ts, cfg);
        hide Evaluate;
      }
    }
  }

  lemma EmptyIsTop(limit: int)
    ensures ReportIsTop([], limit)
  {
  }

  /** Exactly when the reported list can be trusted as the top list, by the configuration and the number of
      candidate events alone: for all scans with that many, if and only if there is no room for any event,
      none can be fresh, none was dropped yet, or the last one caused a trim. Otherwise a late weak event
      can stand where a stronger one was dropped. */
  lemma {:induction false} ReportIsTopIff(cfg: Config, n: nat)
    ensures AlwaysTop(cfg, n) <==>
            || cfg.maxEvents <= 0 || cfg.staleSec < 0.0
            || n <= 2 * cfg.maxEvents || (n - 2 * cfg.maxEvents - 1) % (cfg.maxEvents + 1) == 0
  {
    hide ReportIsTop, ScanAll, FromFile;
    if cfg.maxEvents <= 0 {
      forall quotes: seq<Quote> { NoRoomIsTop(ScanAll(cfg, quotes).offered, cfg.maxEvents); }
    } else if cfg.staleSec < 0.0 {
      EmptyIsTop(cfg.maxEvents);
      forall quotes: seq<Quote> { NothingIsOffered(cfg, quotes); }
    } else if JustTrimmed(n, cfg.maxEvents) {
      forall quotes: seq<Quote> | |ScanAll(cfg, quotes).offered| == n
        ensures ReportIsTop(ScanAll(cfg, quotes).offered, cfg.maxEvents)
      {
        TopWhenTrimmed(ScanAll(cfg, quotes).offered, cfg.maxEvents);
      }
    } else {
      FallingScanFails(cfg, "BASE", n);
    }
  }
}
