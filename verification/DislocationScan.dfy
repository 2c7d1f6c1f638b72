/** The event loop of the cross-venue dislocation report over parsed best quotes. */
module DislocationScan {
  import opened Sequences
  import opened TopEvents

  datatype Venue = Gateio | Mexc

  datatype Quote = Quote(venue: Venue, base: string, ts: real, bid: Price, bidQty: real, ask: Price, askQty: real)

  datatype Config = Config(
    staleSec: real, minNotional: real, totalCostBps: real, minNetEdge: real, cooldownSec: real, maxEvents: int)

  /** What the quote parser lets through. */
  predicate Parsed(q: Quote) { q.bidQty >= 0.0 && q.askQty >= 0.0 && q.ask >= q.bid }

  function Min(a: real, b: real): real { if a <= b then a else b }

  function Evaluate(buy: Quote, sell: Quote, direction: Direction, now: real, cfg: Config): Event {
    var gross := (sell.bid / buy.ask - 1.0) * 10_000.0;
    var age := Max(Max(Abs(now - buy.ts), Abs(now - sell.ts)), Abs(buy.ts - sell.ts));
    Event(now, buy.base, direction, gross, gross - cfg.totalCostBps,
          Min(buy.ask * buy.askQty, sell.bid * sell.bidQty), age <= cfg.staleSec)
  }

  /** The two directions cannot both be crossed: with ask at or above bid on each venue, at most one
      of the two evaluations of a quote has a positive gross edge. */
  lemma OneDirectionAtMost(gate: Quote, mexc: Quote, now: real, cfg: Config)
    requires Parsed(gate) && Parsed(mexc)
    requires Evaluate(mexc, gate, BuyMexcSellGateio, now, cfg).gross > 0.0
    ensures Evaluate(gate, mexc, BuyGateioSellMexc, now, cfg).gross < 0.0
  {
    CrossedMeansAbove(gate.bid, mexc.ask);
    CrossedMeansAbove(mexc.bid, gate.ask);
  }

  lemma CrossedMeansAbove(bid: Price, ask: Price)
    ensures (bid / ask - 1.0) * 10_000.0 > 0.0 <==> bid > ask
    ensures (bid / ask - 1.0) * 10_000.0 < 0.0 <==> bid < ask
  {
    var ratio := bid / ask;
    assert ratio * ask == bid;
    assert (ratio - 1.0) * ask == bid - ask;
    SignOfProduct(ratio - 1.0, ask);
  }

  lemma SignOfProduct(x: real, y: Price)
    ensures x * y > 0.0 <==> x > 0.0
    ensures x * y < 0.0 <==> x < 0.0
  {
    if x < 0.0 { assert (-x) * y > 0.0; }
  }

  // ---- What the loop has seen, as a value ----

  datatype Scan = Scan(
    latest: map<(Venue, string), Quote>, lastEligible: map<(string, Direction), real>,
    offered: seq<Event>, accepted: seq<Event>,
    stale: nat, flat: nat, notionalRejects: nat, costRejects: nat, cooldownRejects: nat)

  const FRESH_SCAN := Scan(map[], map[], [], [], 0, 0, 0, 0, 0)

  function Key(e: Event): (string, Direction) { (e.base, e.direction) }

  function TakeEvent(cfg: Config, s: Scan, e: Event): Scan {
    if !e.isFresh then s.(stale := s.stale + 1)
    else if e.gross <= 0.0 then s.(flat := s.flat + 1)
    else
      var t := s.(offered := s.offered + [e]);
      if e.capacity < cfg.minNotional then t.(notionalRejects := t.notionalRejects + 1)
      else if e.net < cfg.minNetEdge then t.(costRejects := t.costRejects + 1)
      else if Key(e) in s.lastEligible && e.ts - s.lastEligible[Key(e)] < cfg.cooldownSec
      then t.(cooldownRejects := t.cooldownRejects + 1)
      else t.(lastEligible := t.lastEligible[Key(e) := e.ts], accepted := t.accepted + [e])
  }

  function TakeQuote(cfg: Config, s: Scan, q: Quote): Scan {
    var t := s.(latest := s.latest[(q.venue, q.base) := q]);
    if (Gateio, q.base) !in t.latest || (Mexc, q.base) !in t.latest then t
    else
      var gate, mexc := t.latest[(Gateio, q.base)], t.latest[(Mexc, q.base)];
      TakeEvent(cfg, TakeEvent(cfg, t, Evaluate(mexc, gate, BuyMexcSellGateio, q.ts, cfg)),
                Evaluate(gate, mexc, BuyGateioSellMexc, q.ts, cfg))
  }

  function ScanAll(cfg: Config, quotes: seq<Quote>): Scan {
    if quotes == [] then FRESH_SCAN else TakeQuote(cfg, ScanAll(cfg, quotes[..|quotes| - 1]), quotes[|quotes| - 1])
  }

  class Scanner {
    const cfg: Config
    const topCandidates: EventList
    const topEligible: EventList
    var latest: map<(Venue, string), Quote>
    var lastEligible: map<(string, Direction), real>
    var staleRejects: nat
    var flatEvents: nat
    var candidateEvents: nat
    var eligibleEvents: nat
    var notionalRejects: nat
    var costRejects: nat
    var cooldownRejects: nat
    ghost var scan: Scan

    ghost predicate Valid()
      reads this, topCandidates, topEligible
    {
      && topCandidates != topEligible
      && topCandidates.events == Buffer(scan.offered, cfg.maxEvents)
      && topEligible.events == Buffer(scan.accepted, cfg.maxEvents)
      && latest == scan.latest && lastEligible == scan.lastEligible
      && staleRejects == scan.stale && flatEvents == scan.flat
      && candidateEvents == |scan.offered| && eligibleEvents == |scan.accepted|
      && notionalRejects == scan.notionalRejects && costRejects == scan.costRejects
      && cooldownRejects == scan.cooldownRejects
    }

    constructor (cfg: Config)
      ensures Valid() && scan == FRESH_SCAN && this.cfg == cfg
      ensures fresh(topCandidates) && fresh(topEligible)
    {
      this.cfg := cfg;
      topCandidates := new EventList();
      topEligible := new EventList();
      latest, lastEligible := map[], map[];
      staleRejects, flatEvents, candidateEvents, eligibleEvents := 0, 0, 0, 0;
      notionalRejects, costRejects, cooldownRejects := 0, 0, 0;
      scan := FRESH_SCAN;
    }

    method Offer(e: Event)
      requires Valid()
      modifies this, topCandidates, topEligible
      ensures Valid() && scan == TakeEvent(cfg, old(scan), e)
    {
      hide Buffer;
      hide Kept;
      scan := TakeEvent(cfg, scan, e);
      if !e.isFresh {
        staleRejects := staleRejects + 1;
        return;
      }
      if e.gross <= 0.0 {
        flatEvents := flatEvents + 1;
        return;
      }
      candidateEvents := candidateEvents + 1;
      topCandidates.KeepTop(e, cfg.maxEvents);
      BufferSnoc(old(scan.offered), e, cfg.maxEvents);
      if e.capacity < cfg.minNotional {
        notionalRejects := notionalRejects + 1;
      } else if e.net < cfg.minNetEdge {
        costRejects := costRejects + 1;
      } else if Key(e) in lastEligible && e.ts - lastEligible[Key(e)] < cfg.cooldownSec {
        cooldownRejects := cooldownRejects + 1;
      } else {
        lastEligible := lastEligible[Key(e) := e.ts];
        eligibleEvents := eligibleEvents + 1;
        topEligible.KeepTop(e, cfg.maxEvents);
        BufferSnoc(old(scan.accepted), e, cfg.maxEvents);
      }
    }

    method Observe(q: Quote)
      requires Valid()
      modifies this, topCandidates, topEligible
      ensures Valid() && scan == TakeQuote(cfg, old(scan), q)
    {
      latest := latest[(q.venue, q.base) := q];
      scan := scan.(latest := latest);
      if (Gateio, q.base) in latest && (Mexc, q.base) in latest {
        var gate, mexc := latest[(Gateio, q.base)], latest[(Mexc, q.base)];
        Offer(Evaluate(mexc, gate, BuyMexcSellGateio, q.ts, cfg));
        Offer(Evaluate(gate, mexc, BuyGateioSellMexc, q.ts, cfg));
      }
    }

    /** The reported maxima are those over every candidate event of the whole scan; without room for any
        event they are reported as absent. */
    method ReportMaxima(quotes: seq<Quote>) returns (net: Option<real>, gross: Option<real>)
      requires Valid() && scan == ScanAll(cfg, quotes)
      ensures net.None? == gross.None? == (scan.offered == [] || cfg.maxEvents <= 0)
      ensures net.Some? ==> IsMaxNet(scan.offered, net.value) && IsMaxGross(scan.offered, gross.value)
    {
      net, gross := MaxEdges(topCandidates.events);
      ScanFacts(cfg, quotes);
      if cfg.maxEvents <= 0 {
        NoLimitKeepsNothing(scan.offered, cfg.maxEvents);
      } else if net.Some? {
        KeptMaximaAreGlobal(scan.offered, cfg.maxEvents, cfg.totalCostBps, net.value);
        KeptMaximaAreGlobal(scan.offered, cfg.maxEvents, cfg.totalCostBps, gross.value);
      } else {
        KeptMaximaAreGlobal(scan.offered, cfg.maxEvents, cfg.totalCostBps, 0.0);
      }
    }
  }

  // ---- What holds after any stream of quotes ----

  /** Accepted events of one base and direction are at least the cooldown apart, in stream order,
      even when the quote timestamps run backwards. */
  ghost predicate Cooled(accepted: seq<Event>, cooldown: real) {
    forall i, j :: 0 <= i < j < |accepted| && Key(accepted[i]) == Key(accepted[j]) ==>
      accepted[j].ts - accepted[i].ts >= cooldown
  }

  ghost predicate LastKnown(s: Scan) {
    forall i :: 0 <= i < |s.accepted| ==>
      Key(s.accepted[i]) in s.lastEligible && s.accepted[i].ts <= s.lastEligible[Key(s.accepted[i])]
  }

  ghost predicate OfferedOk(cfg: Config, s: Scan) {
    && (forall e :: e in s.offered ==> e.isFresh && e.gross > 0.0 && e.gross == e.net + cfg.totalCostBps)
    && (forall e :: e in s.accepted ==> e in s.offered && e.capacity >= cfg.minNotional && e.net >= cfg.minNetEdge)
    && |s.offered| == s.notionalRejects + s.costRejects + s.cooldownRejects + |s.accepted|
  }

  lemma TakeEventKeepsOffered(cfg: Config, s: Scan, e: Event)
    requires OfferedOk(cfg, s) && e.gross == e.net + cfg.totalCostBps
    ensures OfferedOk(cfg, TakeEvent(cfg, s, e))
  {
    assert forall d :: d in s.offered + [e] <==> d in s.offered || d == e;
    assert forall d :: d in s.accepted + [e] <==> d in s.accepted || d == e;
  }

  lemma TakeEventKeepsCooled(cfg: Config, s: Scan, e: Event)
    requires Cooled(s.accepted, cfg.cooldownSec) && LastKnown(s) && cfg.cooldownSec >= 0.0
    ensures Cooled(TakeEvent(cfg, s, e).accepted, cfg.cooldownSec) && LastKnown(TakeEvent(cfg, s, e))
  {
  }

  /** After any stream: candidates are fresh and positive at a constant cost, every candidate ends in
      exactly one of rejected by size, cost, cooldown or accepted, and acceptances keep the cooldown. */
  lemma {:induction false} ScanFacts(cfg: Config, quotes: seq<Quote>)
    ensures OfferedOk(cfg, ScanAll(cfg, quotes))
    ensures cfg.cooldownSec >= 0.0 ==>
              Cooled(ScanAll(cfg, quotes).accepted, cfg.cooldownSec) && LastKnown(ScanAll(cfg, quotes))
  {
    if quotes != [] {
      var front, q := quotes[..|quotes| - 1], quotes[|quotes| - 1];
      ScanFacts(cfg, front);
      var s := ScanAll(cfg, front);
      var t := s.(latest := s.latest[(q.venue, q.base) := q]);
      if (Gateio, q.base) in t.latest && (Mexc, q.base) in t.latest {
        var gate, mexc := t.latest[(Gateio, q.base)], t.latest[(Mexc, q.base)];
        var a := Evaluate(mexc, gate, BuyMexcSellGateio, q.ts, cfg);
        var b := Evaluate(gate, mexc, BuyGateioSellMexc, q.ts, cfg);
        assert a.gross == a.net + cfg.totalCostBps && b.gross == b.net + cfg.totalCostBps;
        hide Evaluate;
        hide OfferedOk;
        hide Cooled;
        hide LastKnown;
        TakeEventKeepsOffered(cfg, t, a);
        TakeEventKeepsOffered(cfg, TakeEvent(cfg, t, a), b);
        if cfg.cooldownSec >= 0.0 {
          TakeEventKeepsCooled(cfg, t, a);
          TakeEventKeepsCooled(cfg, TakeEvent(cfg, t, a), b);
        }
      }
    }
  }
}
