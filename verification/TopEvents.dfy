/** The lazily trimmed list of best events (cross_venue_dislocation.py). */
module TopEvents {
  import opened Sequences
  import opened StableSort

  datatype Direction = BuyMexcSellGateio | BuyGateioSellMexc

  datatype Event = Event(
    ts: real, base: string, direction: Direction, gross: real, net: real, capacity: real, isFresh: bool)

  /** Descending order by net edge; equal edges keep the order in which they came. */
  predicate NetNotBelow(a: Event, b: Event) { a.net >= b.net }

  function Ranked(events: seq<Event>): (r: seq<Event>)
    ensures |r| == |events|
  {
    Sort(events, NetNotBelow)
  }

  lemma NetNotBelowIsPreorder()
    ensures TotalPreorder(NetNotBelow)
  {
  }

  /** Appending, and trimming to `limit` once the list is more than twice as long. */
  function Kept(events: seq<Event>, event: Event, limit: int): seq<Event> {
    if limit <= 0 then events
    else
      var longer := events + [event];
      if |longer| > limit * 2 then Ranked(longer)[..limit] else longer
  }

  function Buffer(stream: seq<Event>, limit: int): seq<Event> {
    if stream == [] then [] else Kept(Buffer(stream[..|stream| - 1], limit), stream[|stream| - 1], limit)
  }

  class EventList {
    var events: seq<Event>

    constructor ()
      ensures events == []
    {
      events := [];
    }

    method KeepTop(event: Event, limit: int)
      modifies this
      ensures events == Kept(old(events), event, limit)
    {
      if limit <= 0 {
        return;
      }
      events := events + [event];
      if |events| > limit * 2 {
        events := Sort(events, NetNotBelow);
        events := events[..limit];
      }
    }
  }

  lemma RankedFacts(events: seq<Event>)
    ensures Sorted(Ranked(events), NetNotBelow) && multiset(Ranked(events)) == multiset(events)
  {
    NetNotBelowIsPreorder();
    SortIsOrderedPermutation(events, NetNotBelow);
  }

  lemma HeadIsPart(events: seq<Event>, n: nat)
    ensures multiset(Take(events, n)) <= multiset(events)
    ensures |events| > n ==> multiset(events) == multiset(Take(events, n)) + multiset(events[n..])
    ensures |events| <= n ==> multiset(Take(events, n)) == multiset(events)
  {
    if |events| > n {
      assert events == events[..n] + events[n..];
    }
  }

  /** The buffer never holds more than twice the limit, and only events of the stream. */
  lemma {:induction false} BufferIsBounded(stream: seq<Event>, limit: int)
    requires limit > 0
    ensures |Buffer(stream, limit)| <= 2 * limit
    ensures multiset(Buffer(stream, limit)) <= multiset(stream)
  {
    hide Ranked;
    if stream != [] {
      var front, e := stream[..|stream| - 1], stream[|stream| - 1];
      BufferIsBounded(front, limit);
      var longer := Buffer(front, limit) + [e];
      assert stream == front + [e];
      RankedFacts(longer);
      HeadIsPart(Ranked(longer), limit);
    }
  }

  /** The lazily trimmed buffer refines the full sort: its best `limit` events are, in the same
      order, the best `limit` events of everything ever offered. */
  lemma {:induction false} TopAgreesWithFullSort(stream: seq<Event>, limit: int)
    requires limit > 0
    ensures Take(Ranked(Buffer(stream, limit)), limit) == Take(Ranked(stream), limit)
  {
    hide Ranked;
    if stream != [] {
      var front, e := stream[..|stream| - 1], stream[|stream| - 1];
      TopAgreesWithFullSort(front, limit);
      var buffer := Buffer(front, limit);
      RankedSnocHead(buffer, e, limit);
      RankedSnocHead(front, e, limit);
      assert stream == front + [e];
      TrimKeepsHead(buffer + [e], limit);
    }
  }

  /** Trimming to the head of the ranking leaves that head where it was. */
  lemma TrimKeepsHead(longer: seq<Event>, limit: nat)
    ensures |longer| > limit ==> Take(Ranked(Ranked(longer)[..limit]), limit) == Take(Ranked(longer), limit)
  {
    RankedFacts(longer);
    if |longer| > limit {
      SortOfSorted(Ranked(longer)[..limit], NetNotBelow);
    }
  }

  lemma RankedSnocHead(events: seq<Event>, e: Event, limit: nat)
    ensures Take(Ranked(events + [e]), limit) == Take(Insert(Take(Ranked(events), limit), e, NetNotBelow), limit)
  {
    NetNotBelowIsPreorder();
    RankedFacts(events);
    assert (events + [e])[..|events|] == events;
    InsertHead(Ranked(events), e, limit, NetNotBelow);
  }

  /** The best `limit` events of the stream are all in the buffer. */
  lemma TopIsKept(stream: seq<Event>, limit: int)
    requires limit > 0
    ensures multiset(Take(Ranked(stream), limit)) <= multiset(Buffer(stream, limit))
  {
    hide Ranked;
    TopAgreesWithFullSort(stream, limit);
    RankedFacts(Buffer(stream, limit));
    HeadIsPart(Ranked(Buffer(stream, limit)), limit);
  }

  /** Whatever was dropped is matched: at least `limit` kept events have a net edge no smaller. */
  lemma DroppedAreDominated(stream: seq<Event>, limit: int, dropped: Event)
    requires limit > 0 && dropped in multiset(stream) - multiset(Buffer(stream, limit))
    ensures var top := Take(Ranked(stream), limit);
            && |top| == limit
            && multiset(top) <= multiset(Buffer(stream, limit))
            && forall e :: e in top ==> e.net >= dropped.net
  {
    hide Ranked;
    hide Buffer;
    TopIsKept(stream, limit);
    var ranked, buffer := Ranked(stream), Buffer(stream, limit);
    RankedFacts(stream);
    HeadIsPart(ranked, limit);
    assert |ranked| > limit;
    TailIsBelow(ranked, limit, dropped);
  }

  lemma TailIsBelow(ranked: seq<Event>, limit: nat, e: Event)
    requires Sorted(ranked, NetNotBelow) && |ranked| > limit && e in multiset(ranked[limit..])
    ensures forall d :: d in ranked[..limit] ==> d.net >= e.net
  {
    var k :| 0 <= k < |ranked[limit..]| && ranked[limit..][k] == e;
    forall d | d in ranked[..limit] ensures d.net >= e.net {
      var i :| 0 <= i < limit && ranked[i] == d;
      assert NetNotBelow(ranked[i], ranked[limit + k]);
    }
  }

  // ---- Reported maxima ----

  ghost predicate IsMaxNet(events: seq<Event>, value: real) {
    (exists e :: e in events && e.net == value) && forall e :: e in events ==> e.net <= value
  }

  ghost predicate IsMaxGross(events: seq<Event>, value: real) {
    (exists e :: e in events && e.gross == value) && forall e :: e in events ==> e.gross <= value
  }

  method MaxEdges(events: seq<Event>) returns (net: Option<real>, gross: Option<real>)
    ensures net.None? == gross.None? == (events == [])
    ensures net.Some? ==> IsMaxNet(events, net.value) && IsMaxGross(events, gross.value)
  {
    if events == [] {
      return None, None;
    }
    var n, g := events[0].net, events[0].gross;
    for i := 1 to |events|
      invariant IsMaxNet(events[..i], n) && IsMaxGross(events[..i], g)
    {
      assert events[..i + 1] == events[..i] + [events[i]];
      assert forall e :: e in events[..i + 1] <==> e in events[..i] || e == events[i];
      n := if events[i].net > n then events[i].net else n;
      g := if events[i].gross > g then events[i].gross else g;
    }
    assert events[..|events|] == events;
    return Some(n), Some(g);
  }

  /** For every event offered, one with a net edge no smaller is still in the buffer. */
  lemma SomeKeptIsNoWorse(stream: seq<Event>, limit: int, e: Event) returns (d: Event)
    requires limit > 0 && e in stream
    ensures d in Buffer(stream, limit) && d in stream && d.net >= e.net
  {
    hide Ranked;
    hide Buffer;
    BufferIsBounded(stream, limit);
    var buffer := Buffer(stream, limit);
    assert e in multiset(stream);
    if e in multiset(buffer) {
      d := e;
    } else {
      DroppedAreDominated(stream, limit, e);
      var top := Take(Ranked(stream), limit);
      d := top[0];
      assert d in multiset(top);
      assert d in multiset(buffer);
    }
    assert d in multiset(buffer) && d in multiset(stream);
  }

  /** Some kept event is at least as good as `e` on both edges. */
  ghost predicate Matched(kept: seq<Event>, e: Event) { exists d :: d in kept && d.net >= e.net && d.gross >= e.gross }

  /** `kept` is part of `all`, and every event of `all` is matched in it. */
  ghost predicate Covers(kept: seq<Event>, all: seq<Event>) {
    && (forall e {:trigger e in kept} :: e in kept ==> e in all)
    && (forall e {:trigger Matched(kept, e)} :: e in all ==> Matched(kept, e))
  }

  lemma BufferCovers(stream: seq<Event>, limit: int, cost: real)
    requires limit > 0 && forall e :: e in stream ==> e.gross == e.net + cost
    ensures Covers(Buffer(stream, limit), stream)
  {
    hide Buffer;
    var buffer := Buffer(stream, limit);
    BufferIsBounded(stream, limit);
    forall e | e in buffer ensures e in stream {
      assert e in multiset(buffer);
      assert e in multiset(stream);
    }
    forall e | e in stream ensures Matched(buffer, e) {
      var d := SomeKeptIsNoWorse(stream, limit, e);
      assert d in buffer;
    }
  }

  lemma CoveringKeepsMaxima(kept: seq<Event>, all: seq<Event>, value: real)
    requires Covers(kept, all)
    ensures IsMaxNet(kept, value) <==> IsMaxNet(all, value)
    ensures IsMaxGross(kept, value) <==> IsMaxGross(all, value)
  {
    if IsMaxNet(kept, value) {
      forall e | e in all ensures e.net <= value { assert Matched(kept, e); }
    }
    if IsMaxGross(kept, value) {
      forall e | e in all ensures e.gross <= value { assert Matched(kept, e); }
    }
    if IsMaxNet(all, value) {
      var e :| e in all && e.net == value;
      assert Matched(kept, e);
    }
    if IsMaxGross(all, value) {
      var e :| e in all && e.gross == value;
      assert Matched(kept, e);
    }
  }

  /** The maxima of the kept events are the maxima of everything offered. For the gross edge this
      needs the cost between gross and net to be one constant, as it is within a run. */
  lemma KeptMaximaAreGlobal(stream: seq<Event>, limit: int, cost: real, value: real)
    requires limit > 0 && forall e :: e in stream ==> e.gross == e.net + cost
    ensures IsMaxNet(Buffer(stream, limit), value) <==> IsMaxNet(stream, value)
    ensures IsMaxGross(Buffer(stream, limit), value) <==> IsMaxGross(stream, value)
    ensures Buffer(stream, limit) == [] <==> stream == []
  {
    hide Buffer;
    BufferCovers(stream, limit, cost);
    CoveringKeepsMaxima(Buffer(stream, limit), stream, value);
    if stream != [] { assert stream[0] in stream && Matched(Buffer(stream, limit), stream[0]); }
    assert Buffer(stream, limit) != [] ==> Buffer(stream, limit)[0] in Buffer(stream, limit);
  }

  /** A limit of zero or less keeps nothing, so then the maxima are reported as absent. */
  lemma {:induction false} NoLimitKeepsNothing(stream: seq<Event>, limit: int)
    requires limit <= 0
    ensures Buffer(stream, limit) == []
  {
    if stream != [] {
      NoLimitKeepsNothing(stream[..|stream| - 1], limit);
    }
  }

  lemma BufferSnoc(stream: seq<Event>, e: Event, limit: int)
    ensures Buffer(stream + [e], limit) == Kept(Buffer(stream, limit), e, limit)
  {
    assert (stream + [e])[..|stream|] == stream;
  }

  lemma AlreadyRanked(events: seq<Event>)
    requires Sorted(events, NetNotBelow)
    ensures Ranked(events) == events
  {
    SortOfSorted(events, NetNotBelow);
  }

  // ---- When the report is the top of the stream ----

  /** Events since the last trim of a stream of `n` events that has been trimmed. */
  function SinceTrim(n: nat, limit: int): nat
    requires limit > 0 && n > 2 * limit
  {
    (n - 2 * limit - 1) % (limit + 1)
  }

  lemma NextRemainder(x: nat, m: nat)
    requires m > 0
    ensures (x + 1) % m == if x % m == m - 1 then 0 else x % m + 1
  {
    var q, r := x / m, x % m;
    assert x == q * m + r;
    if r == m - 1 {
      assert x + 1 == (q + 1) * m;
      RemainderUnique(x + 1, m, q + 1, 0);
    } else {
      RemainderUnique(x + 1, m, q, r + 1);
    }
  }

  lemma RemainderUnique(x: nat, m: nat, q: nat, r: nat)
    requires r < m && x == q * m + r
    ensures x % m == r
  {
    var d := x / m - q;
    assert x == (x / m) * m + x % m;
    assert d * m == r - x % m;
    MultipleIsLarge(d, m);
  }

  lemma MultipleIsLarge(d: int, m: int)
    requires m > 0
    ensures d >= 1 ==> d * m >= m
    ensures d <= -1 ==> d * m <= -m
  {
  }

  lemma FirstTrim(limit: int)
    requires limit > 0
    ensures SinceTrim(2 * limit + 1, limit) == 0
  {
    RemainderUnique(0, limit + 1, 0, 0);
  }

  /** The buffer grows to twice the limit, and from then on from the limit by one event at a time. */
  lemma {:induction false} BufferSize(stream: seq<Event>, limit: int)
    requires limit > 0
    ensures |stream| <= 2 * limit ==> Buffer(stream, limit) == stream
    ensures |stream| > 2 * limit ==> |Buffer(stream, limit)| == limit + SinceTrim(|stream|, limit)
  {
    hide Ranked, SinceTrim;
    if stream != [] {
      var front, e := stream[..|stream| - 1], stream[|stream| - 1];
      BufferSize(front, limit);
      assert stream == front + [e];
      if |stream| > 2 * limit { TrimStep(|stream|, limit); }
    }
  }

  lemma TrimStep(n: nat, limit: int)
    requires limit > 0 && n > 2 * limit
    ensures n - 1 == 2 * limit ==> SinceTrim(n, limit) == 0
    ensures n - 1 > 2 * limit ==>
              var r := SinceTrim(n - 1, limit);
              r <= limit && SinceTrim(n, limit) == if r == limit then 0 else r + 1
  {
    if n - 1 == 2 * limit { FirstTrim(limit); } else { NextRemainder(n - 1 - 2 * limit - 1, limit + 1); }
  }

  /** The reported list is the head of the ranking of everything offered. */
  ghost predicate ReportIsTop(stream: seq<Event>, limit: int) {
    Ranked(Buffer(stream, limit)) == Take(Ranked(stream), |Buffer(stream, limit)|)
  }

  /** Nothing was dropped yet, or the last event offered caused a trim. */
  predicate JustTrimmed(n: nat, limit: int)
    requires limit > 0
  {
    n <= 2 * limit || SinceTrim(n, limit) == 0
  }

  lemma TopWhenTrimmed(stream: seq<Event>, limit: int)
    requires limit > 0 && JustTrimmed(|stream|, limit)
    ensures ReportIsTop(stream, limit)
  {
    hide Ranked, Buffer, SinceTrim;
    BufferSize(stream, limit);
    TopAgreesWithFullSort(stream, limit);
  }

  /** Every event has a net edge below all those before it. */
  ghost predicate Falling(s: seq<Event>) { forall i, j :: 0 <= i < j < |s| ==> s[i].net > s[j].net }

  /** Two stretches of a falling stream, one after the other, are already ranked. */
  lemma PartRanked(s: seq<Event>, a: nat, b: nat)
    requires Falling(s) && a <= b <= |s|
    ensures Ranked(s[..a] + s[b..]) == s[..a] + s[b..]
  {
    AlreadyRanked(s[..a] + s[b..]);
  }

  /** One more falling event joins what came since the last trim, or causes the next one. */
  lemma FallingStep(s: seq<Event>, limit: int, r: nat)
    requires Falling(s) && 0 < limit && r <= limit && limit + r < |s|
    ensures var n := |s|;
            Kept(s[..limit] + s[n - 1 - r..n - 1], s[n - 1], limit)
              == s[..limit] + if r == limit then [] else s[n - 1 - r..]
  {
    hide Ranked;
    var n := |s|;
    var longer := s[..limit] + s[n - 1 - r..n - 1] + [s[n - 1]];
    assert longer == s[..limit] + s[n - 1 - r..];
    PartRanked(s, limit, n - 1 - r);
    hide Falling;
    assert longer[..limit] == s[..limit];
    assert s[..limit] + [] == s[..limit];
  }

  /** The buffer before the last event of a falling stream: the best, and what came since the last trim. */
  lemma BeforeTrim(s: seq<Event>, front: seq<Event>, limit: int) returns (r: nat)
    requires limit > 0 && |s| > 2 * limit && front == s[..|s| - 1]
    requires |front| > 2 * limit ==>
               && SinceTrim(|front|, limit) <= limit
               && Buffer(front, limit) == front[..limit] + front[|front| - SinceTrim(|front|, limit)..]
    ensures r <= limit && SinceTrim(|s|, limit) == if r == limit then 0 else r + 1
    ensures Buffer(front, limit) == s[..limit] + s[|s| - 1 - r..|s| - 1]
  {
    hide Buffer, SinceTrim;
    TrimStep(|s|, limit);
    if |front| == 2 * limit {
      r := limit;
      BufferSize(front, limit);
      assert front == front[..limit] + front[|front| - r..];
    } else {
      r := SinceTrim(|front|, limit);
    }
    assert front[..limit] == s[..limit] && front[|front| - r..] == s[|s| - 1 - r..|s| - 1];
  }

  /** Of a falling stream the buffer holds the best events and whatever came since the last trim. */
  lemma {:induction false} FallingBuffer(s: seq<Event>, limit: int)
    requires Falling(s) && limit > 0 && |s| > 2 * limit
    ensures SinceTrim(|s|, limit) <= limit
    ensures Buffer(s, limit) == s[..limit] + s[|s| - SinceTrim(|s|, limit)..]
  {
    hide Ranked, SinceTrim, Kept, Buffer;
    var front, e := s[..|s| - 1], s[|s| - 1];
    assert s == front + [e];
    assert Falling(front);
    hide Falling;
    if |front| > 2 * limit { FallingBuffer(front, limit); }
    var r := BeforeTrim(s, front, limit);
    BufferSnoc(front, e, limit);
    FallingStep(s, limit, r);
    assert s[|s|..] == [];
  }

  /** A falling stream is its own ranking, so unless it was just trimmed the buffer's later part is not its top. */
  lemma FallingReportFails(s: seq<Event>, limit: int)
    requires Falling(s) && limit > 0 && !JustTrimmed(|s|, limit)
    ensures !ReportIsTop(s, limit)
  {
    hide Ranked, Buffer, SinceTrim;
    var n, r := |s|, SinceTrim(|s|, limit);
    FallingBuffer(s, limit);
    PartRanked(s, limit, n - r);
    AlreadyRanked(s);
    var report, best := s[..limit] + s[n - r..], Take(s, limit + r);
    assert report[limit] == s[n - r] && best[limit] == s[limit];
    assert s[limit].net > s[n - r].net;
  }
}
