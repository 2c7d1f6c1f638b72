/** What the dislocation scan says about the quotes it read: which of them make an event fresh, crossed,
    accepted or rejected. */
module ScanQuotes {
  import opened Sequences
  import opened TopEvents
  import opened DislocationScan

  // ---- Quotes and pairs ----

  function BuyVenue(d: Direction): Venue { if d.BuyMexcSellGateio? then Mexc else Gateio }

  function SellVenue(d: Direction): Venue { if d.BuyMexcSellGateio? then Gateio else Mexc }

  /** The last quote of a venue for a base among the first `n + 1`. */
  ghost predicate IsLatest(quotes: seq<Quote>, n: nat, i: nat, venue: Venue, base: string) {
    && i <= n < |quotes| && quotes[i].venue == venue && quotes[i].base == base
    && forall k :: i < k <= n ==> !(quotes[k].venue == venue && quotes[k].base == base)
  }

  /** On the `n`-th quote, the quotes to buy at and to sell at. */
  ghost predicate Paired(quotes: seq<Quote>, n: nat, d: Direction, i: nat, j: nat) {
    n < |quotes| && IsLatest(quotes, n, i, BuyVenue(d), quotes[n].base) && IsLatest(quotes, n, j, SellVenue(d), quotes[n].base)
  }

  /** No two of the three times are further apart than the stale limit. */
  predicate Near(a: real, b: real, limit: real) { a - b <= limit && b - a <= limit }

  ghost predicate FreshPair(quotes: seq<Quote>, n: nat, i: nat, j: nat, limit: real)
    requires n < |quotes| && i < |quotes| && j < |quotes|
  {
    && Near(quotes[n].ts, quotes[i].ts, limit) && Near(quotes[n].ts, quotes[j].ts, limit)
    && Near(quotes[i].ts, quotes[j].ts, limit)
  }

  datatype Kind = Stale | Flat | Crossed

  /** What comes of one direction on the `n`-th quote, when both venues are known. */
  ghost predicate Turns(kind: Kind, cfg: Config, quotes: seq<Quote>, n: nat, d: Direction) {
    exists i: nat, j: nat :: Paired(quotes, n, d, i, j) && TurnsOn(kind, cfg, quotes, n, i, j)
  }

  ghost predicate TurnsOn(kind: Kind, cfg: Config, quotes: seq<Quote>, n: nat, i: nat, j: nat)
    requires n < |quotes| && i < |quotes| && j < |quotes|
  {
    match kind
    case Stale => !FreshPair(quotes, n, i, j, cfg.staleSec)
    case Flat => FreshPair(quotes, n, i, j, cfg.staleSec) && quotes[j].bid <= quotes[i].ask
    case Crossed => FreshPair(quotes, n, i, j, cfg.staleSec) && quotes[j].bid > quotes[i].ask
  }

  ghost function One(kind: Kind, cfg: Config, quotes: seq<Quote>, n: nat, d: Direction): seq<(nat, Direction)> {
    if Turns(kind, cfg, quotes, n, d) then [(n, d)] else []
  }

  /** All turns of a kind, in stream order; on each quote, buying on MEXC comes first. */
  ghost function All(kind: Kind, cfg: Config, quotes: seq<Quote>): seq<(nat, Direction)> {
    if quotes == [] then []
    else
      var n := |quotes| - 1;
      All(kind, cfg, quotes[..n]) + One(kind, cfg, quotes, n, BuyMexcSellGateio) + One(kind, cfg, quotes, n, BuyGateioSellMexc)
  }

  /** The event of a pair: the edge over the ask in basis points, less the cost, and what both sides can take. */
  ghost predicate EventOf(cfg: Config, quotes: seq<Quote>, n: nat, d: Direction, i: nat, j: nat, e: Event)
    requires n < |quotes| && i < |quotes| && j < |quotes|
  {
    var buy, sell := quotes[i], quotes[j];
    && e.ts == quotes[n].ts && e.base == quotes[n].base && e.direction == d
    && e.gross * buy.ask == 10_000.0 * (sell.bid - buy.ask)
    && e.net == e.gross - cfg.totalCostBps
    && e.capacity <= buy.ask * buy.askQty && e.capacity <= sell.bid * sell.bidQty
    && (e.capacity == buy.ask * buy.askQty || e.capacity == sell.bid * sell.bidQty)
    && (e.isFresh <==> FreshPair(quotes, n, i, j, cfg.staleSec))
  }

  lemma EvaluateIsRight(cfg: Config, quotes: seq<Quote>, n: nat, d: Direction, i: nat, j: nat)
    requires Paired(quotes, n, d, i, j)
    ensures var e := Evaluate(quotes[i], quotes[j], d, quotes[n].ts, cfg);
            && EventOf(cfg, quotes, n, d, i, j, e)
            && (e.gross > 0.0 <==> quotes[j].bid > quotes[i].ask)
  {
    var ratio := quotes[j].bid / quotes[i].ask;
    assert ratio * quotes[i].ask == quotes[j].bid;
    CrossedMeansAbove(quotes[j].bid, quotes[i].ask);
  }

  // ---- The book of latest quotes ----

  ghost predicate KnowsLatest(latest: map<(Venue, string), Quote>, quotes: seq<Quote>) {
    && (forall key :: key in latest ==> exists i: nat :: i < |quotes| && IsLatest(quotes, |quotes| - 1, i, key.0, key.1) && latest[key] == quotes[i])
    && (forall i :: 0 <= i < |quotes| ==> (quotes[i].venue, quotes[i].base) in latest)
  }

  lemma LatestOneMore(quotes: seq<Quote>, q: Quote, i: nat, venue: Venue, base: string)
    requires i < |quotes| && IsLatest(quotes, |quotes| - 1, i, venue, base) && !(q.venue == venue && q.base == base)
    ensures IsLatest(quotes + [q], |quotes|, i, venue, base)
  {
  }

  lemma BookOneMore(latest: map<(Venue, string), Quote>, quotes: seq<Quote>, q: Quote)
    requires KnowsLatest(latest, quotes)
    ensures KnowsLatest(latest[(q.venue, q.base) := q], quotes + [q])
  {
    var more, after := quotes + [q], latest[(q.venue, q.base) := q];
    forall key | key in after
      ensures exists i: nat :: i < |more| && IsLatest(more, |more| - 1, i, key.0, key.1) && after[key] == more[i]
    {
      if key == (q.venue, q.base) {
        assert IsLatest(more, |more| - 1, |quotes|, q.venue, q.base) && after[key] == more[|quotes|];
      } else {
        var i: nat :| i < |quotes| && IsLatest(quotes, |quotes| - 1, i, key.0, key.1) && latest[key] == quotes[i];
        LatestOneMore(quotes, q, i, key.0, key.1);
        assert more[i] == quotes[i];
      }
    }
  }

  lemma TakeEventKeepsLatest(cfg: Config, s: Scan, e: Event)
    ensures TakeEvent(cfg, s, e).latest == s.latest
  {
  }

  lemma TakeQuoteBooks(cfg: Config, s: Scan, q: Quote)
    ensures TakeQuote(cfg, s, q).latest == s.latest[(q.venue, q.base) := q]
  {
    hide TakeEvent, Evaluate;
    var t := s.(latest := s.latest[(q.venue, q.base) := q]);
    if (Gateio, q.base) in t.latest && (Mexc, q.base) in t.latest {
      var gate, mexc := t.latest[(Gateio, q.base)], t.latest[(Mexc, q.base)];
      var a := Evaluate(mexc, gate, BuyMexcSellGateio, q.ts, cfg);
      TakeEventKeepsLatest(cfg, t, a);
      TakeEventKeepsLatest(cfg, TakeEvent(cfg, t, a), Evaluate(gate, mexc, BuyGateioSellMexc, q.ts, cfg));
    }
  }

  /** The book holds exactly the last quote of each venue and base. */
  lemma {:induction false} ScanKnowsLatest(cfg: Config, quotes: seq<Quote>)
    ensures KnowsLatest(ScanAll(cfg, quotes).latest, quotes)
  {
    hide TakeQuote, KnowsLatest;
    if quotes != [] {
      var front, q := quotes[..|quotes| - 1], quotes[|quotes| - 1];
      ScanKnowsLatest(cfg, front);
      TakeQuoteBooks(cfg, ScanAll(cfg, front), q);
      BookGrows(ScanAll(cfg, front).latest, quotes);
    } else {
      NothingKnown();
    }
  }

  lemma BookGrows(latest: map<(Venue, string), Quote>, quotes: seq<Quote>)
    requires quotes != [] && KnowsLatest(latest, quotes[..|quotes| - 1])
    ensures var q := quotes[|quotes| - 1]; KnowsLatest(latest[(q.venue, q.base) := q], quotes)
  {
    hide KnowsLatest;
    BookOneMore(latest, quotes[..|quotes| - 1], quotes[|quotes| - 1]);
    assert quotes == quotes[..|quotes| - 1] + [quotes[|quotes| - 1]];
  }

  lemma NothingKnown()
    ensures KnowsLatest(FRESH_SCAN.latest, [])
  {
  }

  lemma LatestIsUnique(quotes: seq<Quote>, n: nat, i: nat, j: nat, venue: Venue, base: string)
    requires IsLatest(quotes, n, i, venue, base) && IsLatest(quotes, n, j, venue, base)
    ensures i == j
  {
  }

  /** The book pairs the last quote exactly when both venues are known. */
  lemma BookPairs(latest: map<(Venue, string), Quote>, quotes: seq<Quote>, d: Direction)
    returns (i: nat, j: nat)
    requires quotes != [] && KnowsLatest(latest, quotes)
    ensures var n := |quotes| - 1;
            var base := quotes[n].base;
            if (Gateio, base) in latest && (Mexc, base) in latest
            then i < |quotes| && j < |quotes| && Paired(quotes, n, d, i, j) && quotes[i] == latest[(BuyVenue(d), base)] && quotes[j] == latest[(SellVenue(d), base)]
            else forall a: nat, b: nat :: !Paired(quotes, n, d, a, b)
  {
    i, j := 0, 0;
    var n := |quotes| - 1;
    var base := quotes[n].base;
    if (BuyVenue(d), base) in latest && (SellVenue(d), base) in latest {
      i :| i < |quotes| && IsLatest(quotes, n, i, BuyVenue(d), base) && latest[(BuyVenue(d), base)] == quotes[i];
      j :| j < |quotes| && IsLatest(quotes, n, j, SellVenue(d), base) && latest[(SellVenue(d), base)] == quotes[j];
    }
  }

  // ---- The scan against the quotes ----

  ghost predicate OfferedAt(cfg: Config, quotes: seq<Quote>, where: (nat, Direction), e: Event) {
    exists i: nat, j: nat :: Paired(quotes, where.0, where.1, i, j)
                             && TurnsOn(Crossed, cfg, quotes, where.0, i, j)
                             && EventOf(cfg, quotes, where.0, where.1, i, j, e)
  }

  ghost predicate Sees(cfg: Config, quotes: seq<Quote>, s: Scan) {
    && s.stale == |All(Stale, cfg, quotes)| && s.flat == |All(Flat, cfg, quotes)|
    && |s.offered| == |All(Crossed, cfg, quotes)|
    && forall k :: 0 <= k < |s.offered| ==> OfferedAt(cfg, quotes, All(Crossed, cfg, quotes)[k], s.offered[k])
  }

  /** One evaluated direction: the event goes where its pair turns. */
  lemma TakeTurn(cfg: Config, quotes: seq<Quote>, n: nat, d: Direction, i: nat, j: nat, s: Scan)
    requires Paired(quotes, n, d, i, j)
    ensures var e := Evaluate(quotes[i], quotes[j], d, quotes[n].ts, cfg);
            var t := TakeEvent(cfg, s, e);
            && t.stale == s.stale + |One(Stale, cfg, quotes, n, d)| && t.flat == s.flat + |One(Flat, cfg, quotes, n, d)|
            && t.offered == s.offered + (if One(Crossed, cfg, quotes, n, d) == [] then [] else [e])
            && (One(Crossed, cfg, quotes, n, d) != [] ==>
                  One(Crossed, cfg, quotes, n, d) == [(n, d)] && OfferedAt(cfg, quotes, (n, d), e))
  {
    EvaluateIsRight(cfg, quotes, n, d, i, j);
    forall kind ensures Turns(kind, cfg, quotes, n, d) <==> TurnsOn(kind, cfg, quotes, n, i, j) {
      PairTurns(kind, cfg, quotes, n, d, i, j);
    }
    hide Evaluate, FreshPair, Turns;
  }

  lemma PairTurns(kind: Kind, cfg: Config, quotes: seq<Quote>, n: nat, d: Direction, i: nat, j: nat)
    requires Paired(quotes, n, d, i, j)
    ensures Turns(kind, cfg, quotes, n, d) <==> TurnsOn(kind, cfg, quotes, n, i, j)
  {
    hide TurnsOn;
    if Turns(kind, cfg, quotes, n, d) {
      var a: nat, b: nat :| Paired(quotes, n, d, a, b) && TurnsOn(kind, cfg, quotes, n, a, b);
      LatestIsUnique(quotes, n, a, i, BuyVenue(d), quotes[n].base);
      LatestIsUnique(quotes, n, b, j, SellVenue(d), quotes[n].base);
    }
  }

  lemma Unpaired(cfg: Config, quotes: seq<Quote>, n: nat, d: Direction)
    requires forall a: nat, b: nat :: !Paired(quotes, n, d, a, b)
    ensures forall kind :: One(kind, cfg, quotes, n, d) == []
  {
    hide Paired, TurnsOn;
  }

  lemma StillOffered(cfg: Config, quotes: seq<Quote>, q: Quote, where: (nat, Direction), e: Event)
    requires OfferedAt(cfg, quotes, where, e)
    ensures OfferedAt(cfg, quotes + [q], where, e)
  {
    var i: nat, j: nat :| Paired(quotes, where.0, where.1, i, j) && TurnsOn(Crossed, cfg, quotes, where.0, i, j)
                          && EventOf(cfg, quotes, where.0, where.1, i, j, e);
    var more := quotes + [q];
    assert more[i] == quotes[i] && more[j] == quotes[j] && more[where.0] == quotes[where.0];
    assert Paired(more, where.0, where.1, i, j);
  }

  /** The turns of the last quote. */
  ghost function Last(kind: Kind, cfg: Config, quotes: seq<Quote>): seq<(nat, Direction)>
    requires quotes != []
  {
    One(kind, cfg, quotes, |quotes| - 1, BuyMexcSellGateio) + One(kind, cfg, quotes, |quotes| - 1, BuyGateioSellMexc)
  }

  /** What the last quote adds to the scan. */
  ghost predicate Adds(cfg: Config, quotes: seq<Quote>, s: Scan, t: Scan)
    requires quotes != []
  {
    && t.stale == s.stale + |Last(Stale, cfg, quotes)| && t.flat == s.flat + |Last(Flat, cfg, quotes)|
    && s.offered <= t.offered && |t.offered| == |s.offered| + |Last(Crossed, cfg, quotes)|
    && forall k :: |s.offered| <= k < |t.offered| ==>
         OfferedAt(cfg, quotes, Last(Crossed, cfg, quotes)[k - |s.offered|], t.offered[k])
  }

  lemma QuoteAdds(cfg: Config, s: Scan, quotes: seq<Quote>)
    requires quotes != []
    requires KnowsLatest(s.latest[(quotes[|quotes| - 1].venue, quotes[|quotes| - 1].base) := quotes[|quotes| - 1]], quotes)
    ensures Adds(cfg, quotes, s, TakeQuote(cfg, s, quotes[|quotes| - 1]))
  {
    hide KnowsLatest, Evaluate, TakeEvent, OfferedAt, One, Paired;
    var n, q := |quotes| - 1, quotes[|quotes| - 1];
    var t := s.(latest := s.latest[(q.venue, q.base) := q]);
    var i, j := BookPairs(t.latest, quotes, BuyMexcSellGateio);
    var k, l := BookPairs(t.latest, quotes, BuyGateioSellMexc);
    if (Gateio, q.base) in t.latest && (Mexc, q.base) in t.latest {
      var first := TakeEvent(cfg, t, Evaluate(quotes[i], quotes[j], BuyMexcSellGateio, q.ts, cfg));
      TakeTurn(cfg, quotes, n, BuyMexcSellGateio, i, j, t);
      TakeTurn(cfg, quotes, n, BuyGateioSellMexc, k, l, first);
    } else {
      Unpaired(cfg, quotes, n, BuyMexcSellGateio);
      Unpaired(cfg, quotes, n, BuyGateioSellMexc);
    }
  }

  lemma SeesOneMore(cfg: Config, front: seq<Quote>, q: Quote, s: Scan, t: Scan)
    requires Sees(cfg, front, s) && Adds(cfg, front + [q], s, t)
    ensures Sees(cfg, front + [q], t)
  {
    hide OfferedAt, One;
    var quotes := front + [q];
    assert quotes[..|quotes| - 1] == front;
    forall kind ensures All(kind, cfg, quotes) == All(kind, cfg, front) + Last(kind, cfg, quotes) {
      ConcatAssociative(All(kind, cfg, front), One(kind, cfg, quotes, |front|, BuyMexcSellGateio),
                        One(kind, cfg, quotes, |front|, BuyGateioSellMexc));
    }
    hide All, Last;
    forall k | 0 <= k < |t.offered| ensures OfferedAt(cfg, quotes, All(Crossed, cfg, quotes)[k], t.offered[k]) {
      if k < |s.offered| { StillOffered(cfg, front, q, All(Crossed, cfg, front)[k], s.offered[k]); }
    }
  }

  /** The scan against the stream: the stale counter counts exactly the pairs of latest quotes of which some
      two times, that of the event included, are further apart than the limit; the offered events are
      exactly the near pairs whose bid is above the ask, in stream order, and each says what its pair says. */
  lemma {:induction false} ScanSeesQuotes(cfg: Config, quotes: seq<Quote>)
    ensures Sees(cfg, quotes, ScanAll(cfg, quotes))
  {
    if quotes != [] {
      hide TakeQuote, KnowsLatest, Sees, Adds;
      var front, q := quotes[..|quotes| - 1], quotes[|quotes| - 1];
      assert quotes == front + [q];
      ScanSeesQuotes(cfg, front);
      ScanKnowsLatest(cfg, front);
      BookOneMore(ScanAll(cfg, front).latest, front, q);
      QuoteAdds(cfg, ScanAll(cfg, front), quotes);
      SeesOneMore(cfg, front, q, ScanAll(cfg, front), ScanAll(cfg, quotes));
    } else {
      NothingSeen(cfg);
    }
  }

  lemma NothingSeen(cfg: Config)
    ensures Sees(cfg, [], FRESH_SCAN)
  {
  }

  // ---- Acceptance ----

  /** An accepted event of the same base and direction less than the cooldown before. */
  ghost predicate Cooling(cfg: Config, accepted: seq<Event>, e: Event) {
    exists i :: 0 <= i < |accepted| && accepted[i].base == e.base && accepted[i].direction == e.direction
                && e.ts - accepted[i].ts < cfg.cooldownSec
  }

  datatype Fate = TooSmall | TooCostly | CoolingDown | Taken

  ghost function FateOf(cfg: Config, accepted: seq<Event>, e: Event): Fate {
    if e.capacity < cfg.minNotional then TooSmall
    else if e.net < cfg.minNetEdge then TooCostly
    else if Cooling(cfg, accepted, e) then CoolingDown
    else Taken
  }

  /** The accepted events of a list of offers, by the events accepted before them alone. */
  ghost function Accept(cfg: Config, offered: seq<Event>): seq<Event> {
    if offered == [] then []
    else
      var before, e := Accept(cfg, offered[..|offered| - 1]), offered[|offered| - 1];
      if FateOf(cfg, before, e).Taken? then before + [e] else before
  }

  ghost function CountFate(cfg: Config, offered: seq<Event>, fate: Fate): nat {
    if offered == [] then 0
    else
      var front, e := offered[..|offered| - 1], offered[|offered| - 1];
      CountFate(cfg, front, fate) + if FateOf(cfg, Accept(cfg, front), e) == fate then 1 else 0
  }

  /** The map holds the last accepted time of each key, and only of those. */
  ghost predicate LastAccepted(s: Scan) {
    && LastKnown(s)
    && forall key :: key in s.lastEligible ==> TakenAt(s.accepted, key, s.lastEligible[key])
  }

  ghost predicate TakenAt(accepted: seq<Event>, key: (string, Direction), ts: real) {
    exists i :: 0 <= i < |accepted| && Key(accepted[i]) == key && accepted[i].ts == ts
  }

  ghost predicate Accepts(cfg: Config, s: Scan) {
    && LastAccepted(s) && s.accepted == Accept(cfg, s.offered)
    && s.notionalRejects == CountFate(cfg, s.offered, TooSmall)
    && s.costRejects == CountFate(cfg, s.offered, TooCostly)
    && s.cooldownRejects == CountFate(cfg, s.offered, CoolingDown)
  }

  lemma LookupIsCooling(cfg: Config, s: Scan, e: Event)
    requires LastAccepted(s)
    ensures Cooling(cfg, s.accepted, e) <==> Key(e) in s.lastEligible && e.ts - s.lastEligible[Key(e)] < cfg.cooldownSec
  {
    if Key(e) in s.lastEligible { assert TakenAt(s.accepted, Key(e), s.lastEligible[Key(e)]); }
  }

  lemma TakenStays(accepted: seq<Event>, e: Event, key: (string, Direction), ts: real)
    requires TakenAt(accepted, key, ts)
    ensures TakenAt(accepted + [e], key, ts)
  {
    var i :| 0 <= i < |accepted| && Key(accepted[i]) == key && accepted[i].ts == ts;
    assert (accepted + [e])[i] == accepted[i];
  }

  lemma TakeKeepsLast(cfg: Config, s: Scan, e: Event)
    requires LastAccepted(s) && cfg.cooldownSec >= 0.0
    ensures LastAccepted(TakeEvent(cfg, s, e))
  {
    hide TakenAt;
    var t := TakeEvent(cfg, s, e);
    if t.accepted != s.accepted {
      forall key | key in t.lastEligible ensures TakenAt(t.accepted, key, t.lastEligible[key]) {
        if key == Key(e) { JustTaken(s.accepted, e); } else { TakenStays(s.accepted, e, key, s.lastEligible[key]); }
      }
    }
  }

  lemma JustTaken(accepted: seq<Event>, e: Event)
    ensures TakenAt(accepted + [e], Key(e), e.ts)
  {
    assert (accepted + [e])[|accepted|] == e;
  }

  lemma AcceptSnoc(cfg: Config, offered: seq<Event>, e: Event)
    ensures var fate := FateOf(cfg, Accept(cfg, offered), e);
            && Accept(cfg, offered + [e]) == (if fate.Taken? then Accept(cfg, offered) + [e] else Accept(cfg, offered))
            && forall f :: CountFate(cfg, offered + [e], f) == CountFate(cfg, offered, f) + if fate == f then 1 else 0
  {
    hide FateOf;
    assert (offered + [e])[..|offered|] == offered;
  }

  /** Where the program puts an offered event is its fate. */
  lemma TakeFollowsFate(cfg: Config, s: Scan, e: Event)
    requires LastAccepted(s) && e.isFresh && e.gross > 0.0
    ensures var t, fate := TakeEvent(cfg, s, e), FateOf(cfg, s.accepted, e);
            && t.offered == s.offered + [e]
            && t.accepted == (if fate.Taken? then s.accepted + [e] else s.accepted)
            && t.notionalRejects == s.notionalRejects + (if fate.TooSmall? then 1 else 0)
            && t.costRejects == s.costRejects + (if fate.TooCostly? then 1 else 0)
            && t.cooldownRejects == s.cooldownRejects + (if fate.CoolingDown? then 1 else 0)
  {
    LookupIsCooling(cfg, s, e);
    hide LastAccepted, Cooling;
  }

  lemma TakeKeepsAccepts(cfg: Config, s: Scan, e: Event)
    requires Accepts(cfg, s) && cfg.cooldownSec >= 0.0
    ensures Accepts(cfg, TakeEvent(cfg, s, e))
  {
    TakeKeepsLast(cfg, s, e);
    if e.isFresh && e.gross > 0.0 {
      TakeFollowsFate(cfg, s, e);
      AcceptSnoc(cfg, s.offered, e);
      hide TakeEvent;
    }
    hide LastAccepted, FateOf, Accept, CountFate;
  }

  /** The scan against its offers: an event is accepted exactly when it is large enough, worth its cost and
      no accepted event of its base and direction is less than the cooldown before it; every counter counts
      the first of these that fails. */
  lemma {:induction false} AcceptanceIsGreedy(cfg: Config, quotes: seq<Quote>)
    requires cfg.cooldownSec >= 0.0
    ensures Accepts(cfg, ScanAll(cfg, quotes))
  {
    if quotes != [] {
      hide Accepts, TakeEvent, Evaluate;
      var front, q := quotes[..|quotes| - 1], quotes[|quotes| - 1];
      AcceptanceIsGreedy(cfg, front);
      var s := ScanAll(cfg, front);
      var t := s.(latest := s.latest[(q.venue, q.base) := q]);
      SameBook(cfg, s, t);
      if (Gateio, q.base) in t.latest && (Mexc, q.base) in t.latest {
        var gate, mexc := t.latest[(Gateio, q.base)], t.latest[(Mexc, q.base)];
        var a := Evaluate(mexc, gate, BuyMexcSellGateio, q.ts, cfg);
        TakeKeepsAccepts(cfg, t, a);
        TakeKeepsAccepts(cfg, TakeEvent(cfg, t, a), Evaluate(gate, mexc, BuyGateioSellMexc, q.ts, cfg));
      }
    } else {
      NothingAccepted(cfg);
    }
  }

  lemma SameBook(cfg: Config, s: Scan, t: Scan)
    requires Accepts(cfg, s) && t == s.(latest := t.latest)
    ensures Accepts(cfg, t)
  {
  }

  lemma NothingAccepted(cfg: Config)
    ensures Accepts(cfg, FRESH_SCAN)
  {
  }
}
