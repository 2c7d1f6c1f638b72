/** Exactly which funding histories the bisecting fetch returns whole (daily_collector.py). */
module FundingComplete {
  import opened Sequences
  import opened StableSort
  import opened Timeline
  import opened FundingHistory

  // ---- The settlements of a window ----

  /** The true settlements of a window in time order. */
  function Listed(truth: map<int, real>, from: int, to: int): seq<Row>
    decreases 1 + to - from
  {
    if to < from then [] else Listed(truth, from, to - 1) + if to in truth then [Row(to, truth[to])] else []
  }

  lemma {:induction false} ListedFacts(truth: map<int, real>, from: int, to: int)
    ensures forall r :: r in Listed(truth, from, to) <==> r.ts in truth && truth[r.ts] == r.rate && InWindow(r.ts, from, to)
    ensures Ascending(Listed(truth, from, to))
    decreases 1 + to - from
  {
    if from <= to {
      var front := Listed(truth, from, to - 1);
      ListedFacts(truth, from, to - 1);
      forall i | 0 <= i < |front| ensures front[i].ts < to { assert front[i] in front; }
    }
  }

  lemma {:induction false} ListedGrows(truth: map<int, real>, from: int, mid: int, to: int)
    requires mid <= to
    ensures |Listed(truth, from, mid)| <= |Listed(truth, from, to)|
    decreases -mid + to
  {
    if mid < to && from <= to { ListedGrows(truth, from, mid, to - 1); }
  }

  // ---- Pages and the truth behind them ----

  function TimeSet(rows: seq<Row>): set<int> { set r | r in rows :: r.ts }

  lemma {:induction false} TimeSetSize(rows: seq<Row>)
    requires DistinctTimes(rows)
    ensures |TimeSet(rows)| == |rows|
  {
    if rows != [] {
      var front, last := rows[..|rows| - 1], rows[|rows| - 1];
      assert rows == front + [last];
      TimeSetSize(front);
      forall r | r in front ensures r.ts != last.ts {
        var i :| 0 <= i < |front| && front[i] == r;
        assert rows[i].ts != rows[|rows| - 1].ts;
      }
      assert TimeSet(rows) == TimeSet(front) + {last.ts};
      assert last.ts !in TimeSet(front);
    }
  }

  lemma {:induction false} SubsetSize<T>(a: set<T>, b: set<T>)
    requires a <= b
    ensures |a| <= |b| && (|a| == |b| ==> a == b)
    decreases |a|
  {
    if |a| > 0 {
      var x :| x in a;
      SubsetSize(a - {x}, b - {x});
      assert a == a - {x} + {x} && b == b - {x} + {x};
    }
  }

  lemma AscendingIsDistinct(rows: seq<Row>)
    requires Ascending(rows)
    ensures DistinctTimes(rows)
  {
  }

  /** A page with distinct true settlements of its window holds at most all of them, and is all of them when
      it holds that many. */
  lemma PageSize(rows: seq<Row>, truth: map<int, real>, from: int, to: int)
    requires TrueRows(rows, truth, from, to) && DistinctTimes(rows)
    ensures |rows| <= |Listed(truth, from, to)|
    ensures |rows| == |Listed(truth, from, to)| ==> AllRows(rows, truth, from, to)
  {
    var listed := Listed(truth, from, to);
    ListedFacts(truth, from, to);
    AscendingIsDistinct(listed);
    TimeSetSize(rows);
    TimeSetSize(listed);
    hide DistinctTimes, Ascending, Listed;
    forall r | r in rows ensures r.ts in TimeSet(listed) { assert r in listed; }
    SubsetSize(TimeSet(rows), TimeSet(listed));
    if |rows| == |listed| {
      forall t | t in truth && InWindow(t, from, to) ensures Row(t, truth[t]) in rows {
        assert Row(t, truth[t]) in listed;
        assert t in TimeSet(rows);
        var r :| r in rows && r.ts == t;
        assert r == Row(t, truth[t]);
      }
    }
  }

  /** A faithful page is full exactly when its window holds at least `limit` settlements. */
  lemma FullPageIff(rows: seq<Row>, truth: map<int, real>, limit: nat, from: int, to: int)
    requires WindowFaithful(rows, truth, limit, from, to)
    ensures |rows| >= limit <==> |Listed(truth, from, to)| >= limit
    ensures |Listed(truth, from, to)| <= limit ==> AllRows(rows, truth, from, to)
  {
    PageSize(rows, truth, from, to);
    if |rows| < limit {
      var listed := Listed(truth, from, to);
      ListedFacts(truth, from, to);
      AscendingIsDistinct(listed);
      TimeSetSize(rows);
      TimeSetSize(listed);
      hide DistinctTimes, Ascending, Listed;
      forall r | r in listed ensures r.ts in TimeSet(rows) { assert Row(r.ts, truth[r.ts]) in rows; }
      SubsetSize(TimeSet(listed), TimeSet(rows));
    }
  }

  // ---- The condition on the data ----

  /** Halved as long as a window holds a full page, is longer than a day and lies above the fifth level: no final
      window may hold more than `limit` settlements. */
  ghost predicate Fits(truth: map<int, real>, limit: nat, from: int, to: int, depth: nat)
    requires depth <= MAX_DEPTH
    decreases MAX_DEPTH - depth
  {
    var n := |Listed(truth, from, to)|;
    if n < limit || depth >= 4 || to - from <= 86_400 then n <= limit
    else
      var mid := (from + to) / 2;
      Fits(truth, limit, from, mid, depth + 1) && Fits(truth, limit, mid + 1, to, depth + 1)
  }

  lemma FetchLeaf(api: Api, limit: nat, from: int, to: int, depth: nat)
    requires depth <= MAX_DEPTH && !SplitNeeded(|api(from, to)|, limit, from, to, depth)
    ensures forall r :: r in Fetch(api, limit, from, to, depth) <==> r in api(from, to)
  {
    SortMembers(api(from, to), RowNotLater);
  }

  lemma FetchSplit(api: Api, limit: nat, from: int, to: int, depth: nat)
    requires depth <= MAX_DEPTH && SplitNeeded(|api(from, to)|, limit, from, to, depth)
    ensures var mid := (from + to) / 2;
            && from <= mid < to
            && Fetch(api, limit, from, to, depth)
                 == Merge(Fetch(api, limit, from, mid, depth + 1) + Fetch(api, limit, mid + 1, to, depth + 1))
  {
    hide Merge, Sort;
  }

  lemma FitsUnfold(truth: map<int, real>, limit: nat, from: int, to: int, depth: nat)
    requires depth <= MAX_DEPTH
    ensures var n, mid := |Listed(truth, from, to)|, (from + to) / 2;
            Fits(truth, limit, from, to, depth) <==>
              if !SplitNeeded(n, limit, from, to, depth) then n <= limit
              else Fits(truth, limit, from, mid, depth + 1) && Fits(truth, limit, mid + 1, to, depth + 1)
  {
    hide Listed;
  }

  /** The fetch splits where the truth asks for it, whatever a faithful API answers. */
  lemma SplitsAlike(api: Api, truth: map<int, real>, limit: nat, from: int, to: int, depth: nat)
    requires Faithful(api, truth, limit)
    ensures SplitNeeded(|api(from, to)|, limit, from, to, depth) <==> SplitNeeded(|Listed(truth, from, to)|, limit, from, to, depth)
    ensures |Listed(truth, from, to)| <= limit ==> AllRows(api(from, to), truth, from, to)
  {
    assert WindowFaithful(api(from, to), truth, limit, from, to);
    hide Faithful, WindowFaithful, Listed, AllRows;
    FullPageIff(api(from, to), truth, limit, from, to);
  }

  lemma SplitIsComplete(api: Api, truth: map<int, real>, limit: nat, from: int, to: int, depth: nat)
    requires depth <= MAX_DEPTH && Faithful(api, truth, limit) && SplitNeeded(|api(from, to)|, limit, from, to, depth)
    requires var mid := (from + to) / 2;
             && AllRows(Fetch(api, limit, from, mid, depth + 1), truth, from, mid)
             && AllRows(Fetch(api, limit, mid + 1, to, depth + 1), truth, mid + 1, to)
    ensures AllRows(Fetch(api, limit, from, to, depth), truth, from, to)
  {
    hide Fetch, Merge, TrueRows, AllRows, Faithful;
    var mid := (from + to) / 2;
    FetchSplit(api, limit, from, to, depth);
    FetchIsSoundAndComplete(api, truth, limit, from, mid, depth + 1);
    FetchIsSoundAndComplete(api, truth, limit, mid + 1, to, depth + 1);
    MergeFacts(Fetch(api, limit, from, mid, depth + 1), Fetch(api, limit, mid + 1, to, depth + 1), truth, from, mid, to);
  }

  lemma LeafIsComplete(api: Api, truth: map<int, real>, limit: nat, from: int, to: int, depth: nat)
    requires depth <= MAX_DEPTH && !SplitNeeded(|api(from, to)|, limit, from, to, depth)
    requires AllRows(api(from, to), truth, from, to)
    ensures AllRows(Fetch(api, limit, from, to, depth), truth, from, to)
  {
    hide Fetch;
    FetchLeaf(api, limit, from, to, depth);
  }

  /** Data that fits comes back whole through every faithful API. */
  lemma {:induction false} FittingIsComplete(api: Api, truth: map<int, real>, limit: nat, from: int, to: int, depth: nat)
    requires depth <= MAX_DEPTH && Faithful(api, truth, limit) && Fits(truth, limit, from, to, depth)
    ensures AllRows(Fetch(api, limit, from, to, depth), truth, from, to)
    decreases MAX_DEPTH - depth
  {
    hide Fetch, Faithful, Listed, Fits, AllRows;
    SplitsAlike(api, truth, limit, from, to, depth);
    FitsUnfold(truth, limit, from, to, depth);
    if SplitNeeded(|api(from, to)|, limit, from, to, depth) {
      var mid := (from + to) / 2;
      FittingIsComplete(api, truth, limit, from, mid, depth + 1);
      FittingIsComplete(api, truth, limit, mid + 1, to, depth + 1);
      SplitIsComplete(api, truth, limit, from, to, depth);
    } else {
      LeafIsComplete(api, truth, limit, from, to, depth);
    }
  }

  /** An API that answers the earliest settlements of a window, as many as a page holds. */
  function EarliestApi(truth: map<int, real>, limit: nat): Api { (from, to) => Take(Listed(truth, from, to), limit) }

  lemma EarliestIsFaithful(truth: map<int, real>, limit: nat)
    ensures Faithful(EarliestApi(truth, limit), truth, limit)
  {
    forall from, to ensures WindowFaithful(EarliestApi(truth, limit)(from, to), truth, limit, from, to) {
      EarliestPage(truth, limit, from, to);
    }
  }

  lemma EarliestPage(truth: map<int, real>, limit: nat, from: int, to: int)
    ensures WindowFaithful(Take(Listed(truth, from, to), limit), truth, limit, from, to)
    ensures |Take(Listed(truth, from, to), limit)| >= limit <==> |Listed(truth, from, to)| >= limit
  {
    ListedFacts(truth, from, to);
    hide Listed;
    var listed, page := Listed(truth, from, to), Take(Listed(truth, from, to), limit);
    assert forall r :: r in page ==> r in listed;
  }

  lemma {:induction false} MergeMembers(rows: seq<Row>)
    ensures forall r :: r in Merge(rows) ==> r in rows
  {
    TimesFacts(rows);
    PickFacts(rows, SortedDistinct(Times(rows)));
  }

  /** What neither half shows, the whole does not show. */
  lemma HalvesLose(api: Api, truth: map<int, real>, limit: nat, from: int, to: int, depth: nat, t: int)
    requires depth <= MAX_DEPTH && Faithful(api, truth, limit) && SplitNeeded(|api(from, to)|, limit, from, to, depth)
    requires var mid := (from + to) / 2;
             || (InWindow(t, from, mid) && NotShown(Fetch(api, limit, from, mid, depth + 1), t))
             || (InWindow(t, mid + 1, to) && NotShown(Fetch(api, limit, mid + 1, to, depth + 1), t))
    ensures InWindow(t, from, to) && NotShown(Fetch(api, limit, from, to, depth), t)
  {
    hide Fetch, Merge, Faithful;
    var mid := (from + to) / 2;
    FetchSplit(api, limit, from, to, depth);
    var left: seq<Row>, right: seq<Row> := Fetch(api, limit, from, mid, depth + 1), Fetch(api, limit, mid + 1, to, depth + 1);
    FetchIsSoundAndComplete(api, truth, limit, from, mid, depth + 1);
    FetchIsSoundAndComplete(api, truth, limit, mid + 1, to, depth + 1);
    MergeMembers(left + right);
    forall r: Row | r in left + right ensures r.ts != t {
      if r in left { assert InWindow(r.ts, from, mid); } else { assert r in right && InWindow(r.ts, mid + 1, to); }
    }
  }

  ghost predicate NotShown(rows: seq<Row>, t: int) { forall r :: r in rows ==> r.ts != t }

  /** Data that does not fit loses a settlement: one that the API of earliest pages never shows. */
  lemma {:induction false} UnfittingLosesOne(truth: map<int, real>, limit: nat, from: int, to: int, depth: nat) returns (t: int)
    requires depth <= MAX_DEPTH && !Fits(truth, limit, from, to, depth)
    ensures t in truth && InWindow(t, from, to)
    ensures NotShown(Fetch(EarliestApi(truth, limit), limit, from, to, depth), t)
    decreases MAX_DEPTH - depth
  {
    hide Fetch, Faithful, Listed, Fits, EarliestApi, NotShown, AllRows;
    var api := EarliestApi(truth, limit);
    EarliestIsFaithful(truth, limit);
    SplitsAlike(api, truth, limit, from, to, depth);
    FitsUnfold(truth, limit, from, to, depth);
    if SplitNeeded(|api(from, to)|, limit, from, to, depth) {
      var mid := (from + to) / 2;
      if !Fits(truth, limit, from, mid, depth + 1) {
        t := UnfittingLosesOne(truth, limit, from, mid, depth + 1);
      } else {
        t := UnfittingLosesOne(truth, limit, mid + 1, to, depth + 1);
      }
      HalvesLose(api, truth, limit, from, to, depth, t);
    } else {
      t := LeafLosesOne(truth, limit, from, to);
      LeafShowsPage(truth, limit, from, to, depth, t);
    }
  }

  lemma LeafShowsPage(truth: map<int, real>, limit: nat, from: int, to: int, depth: nat, t: int)
    requires depth <= MAX_DEPTH && !SplitNeeded(|EarliestApi(truth, limit)(from, to)|, limit, from, to, depth)
    requires NotShown(Take(Listed(truth, from, to), limit), t)
    ensures NotShown(Fetch(EarliestApi(truth, limit), limit, from, to, depth), t)
  {
    hide Fetch, Listed;
    FetchLeaf(EarliestApi(truth, limit), limit, from, to, depth);
  }

  lemma LeafLosesOne(truth: map<int, real>, limit: nat, from: int, to: int) returns (t: int)
    requires |Listed(truth, from, to)| > limit
    ensures t in truth && InWindow(t, from, to)
    ensures NotShown(Take(Listed(truth, from, to), limit), t)
  {
    var listed := Listed(truth, from, to);
    ListedFacts(truth, from, to);
    hide Listed;
    assert listed[limit] in listed;
    t := listed[limit].ts;
    forall i | 0 <= i < limit ensures listed[i].ts != t { assert listed[i].ts < listed[limit].ts; }
  }

  /** Exactly when the fetch is complete: every faithful API yields every settlement of the window if and only
      if the data fits, that is, no final window holds more settlements than a page. */
  lemma {:induction false} FetchIsCompleteIff(truth: map<int, real>, limit: nat, from: int, to: int)
    ensures Fits(truth, limit, from, to, 0) <==>
            forall api: Api :: Faithful(api, truth, limit) ==> AllRows(Fetch(api, limit, from, to, 0), truth, from, to)
  {
    hide Fetch, Fits, Faithful, AllRows;
    if Fits(truth, limit, from, to, 0) {
      forall api: Api | Faithful(api, truth, limit) ensures AllRows(Fetch(api, limit, from, to, 0), truth, from, to) {
        FittingIsComplete(api, truth, limit, from, to, 0);
      }
    } else {
      var t := UnfittingLosesOne(truth, limit, from, to, 0);
      EarliestIsFaithful(truth, limit);
      MissingRow(Fetch(EarliestApi(truth, limit), limit, from, to, 0), truth, from, to, t);
    }
  }

  lemma MissingRow(rows: seq<Row>, truth: map<int, real>, from: int, to: int, t: int)
    requires t in truth && InWindow(t, from, to) && NotShown(rows, t)
    ensures !AllRows(rows, truth, from, to)
  {
    assert Row(t, truth[t]) !in rows;
  }

  // ---- Hourly settlements ----

  const LEAF_ROWS := 269

  lemma SpacedCount(truth: map<int, real>, from: int, to: int)
    requires Spaced(truth, 3600)
    ensures |Listed(truth, from, to)| > 0 ==> (|Listed(truth, from, to)| - 1) * 3600 <= to - from
  {
    var listed := Listed(truth, from, to);
    ListedFacts(truth, from, to);
    hide Listed;
    if listed != [] {
      forall i | 0 < i < |listed| ensures listed[i].ts - listed[i - 1].ts >= 3600 {
        assert listed[i] in listed && listed[i - 1] in listed && listed[i - 1].ts < listed[i].ts;
      }
      SpacedRows(listed, 3600);
      assert listed[0] in listed && listed[|listed| - 1] in listed;
    }
  }

  lemma {:induction false} HourlyFits(truth: map<int, real>, limit: nat, from: int, to: int, depth: nat)
    requires depth <= MAX_DEPTH && Spaced(truth, 3600) && limit >= LEAF_ROWS
    requires (to - from) * PowerOfTwo(depth) <= MAX_DAYS * SECONDS_PER_DAY
    ensures Fits(truth, limit, from, to, depth)
    decreases MAX_DEPTH - depth
  {
    hide Listed;
    SpacedCount(truth, from, to);
    if SplitNeeded(|Listed(truth, from, to)|, limit, from, to, depth) {
      var mid := (from + to) / 2;
      HalfWidth(from, mid, to, PowerOfTwo(depth));
      HourlyFits(truth, limit, from, mid, depth + 1);
      HourlyFits(truth, limit, mid + 1, to, depth + 1);
    } else {
      assert PowerOfTwo(0) == 1 && PowerOfTwo(1) == 2 && PowerOfTwo(2) == 4 && PowerOfTwo(3) == 8 && PowerOfTwo(4) == 16;
    }
  }

  predicate OnTheHour(from: int, t: int) { (t - from) % 3600 == 0 }

  /** A settlement every hour from the start of the window on. */
  function EveryHour(from: int, to: int): map<int, real> { map t | from <= t <= to && OnTheHour(from, t) :: 0.0 }

  lemma EveryHourIsSpaced(from: int, to: int)
    ensures Spaced(EveryHour(from, to), 3600)
  {
  }

  lemma {:induction false} EveryHourCount(from: int, to: int, k: nat)
    requires from + 3600 * k <= to
    ensures |Listed(EveryHour(from, to), from, from + 3600 * k)| >= k + 1
  {
    var truth, t := EveryHour(from, to), from + 3600 * k;
    assert t - from == 3600 * k && t in truth;
    if k > 0 {
      EveryHourCount(from, to, k - 1);
      ListedGrows(truth, from, t - 3600, t - 1);
    }
  }

  /** The leftmost windows all hold at least 269 of them, down to the last, which is not split. */
  lemma {:induction false} EveryHourSpills(limit: nat, start: int, end: int, to: int, depth: nat)
    requires depth <= MAX_DEPTH && limit < LEAF_ROWS && start <= to <= end
    requires (to - start) * PowerOfTwo(depth) == MAX_DAYS * SECONDS_PER_DAY
    ensures !Fits(EveryHour(start, end), limit, start, to, depth)
    decreases MAX_DEPTH - depth
  {
    assert PowerOfTwo(0) == 1 && PowerOfTwo(1) == 2 && PowerOfTwo(2) == 4 && PowerOfTwo(3) == 8 && PowerOfTwo(4) == 16;
    assert to - start >= 966_600;
    EveryHourCount(start, end, 268);
    ListedGrows(EveryHour(start, end), start, start + 3600 * 268, to);
    hide Listed;
    if depth < MAX_DEPTH {
      var mid := (start + to) / 2;
      assert (mid - start) * PowerOfTwo(depth + 1) == MAX_DAYS * SECONDS_PER_DAY;
      EveryHourSpills(limit, start, end, mid, depth + 1);
    }
  }

  /** With settlements at least an hour apart the whole 179-day history comes back, each settlement once
      and in time order, for every row limit from 269 up, the program's 1000 included. */
  lemma HourlyHistoryIsExact(api: Api, truth: map<int, real>, limit: nat, now: int, start: Option<int>)
    requires Faithful(api, truth, limit) && Spaced(truth, 3600) && limit >= LEAF_ROWS
    ensures var rows, from := FetchFundingHistory(api, limit, now, start), HistoryStart(now, start);
            && (forall r :: r in rows <==> r.ts in truth && truth[r.ts] == r.rate && InWindow(r.ts, from, now))
            && Ascending(rows)
  {
    var from := HistoryStart(now, start);
    assert PowerOfTwo(0) == 1;
    HourlyFits(truth, limit, from, now, 0);
    hide Fetch, Fits, Faithful, Ascending;
    FetchAscends(api, truth, limit, from, now, 0);
    FittingIsComplete(api, truth, limit, from, now, 0);
    FetchIsSoundAndComplete(api, truth, limit, from, now, 0);
  }

  ghost predicate HourlyComplete(limit: nat, now: int) {
    forall truth, api: Api :: Spaced(truth, 3600) && Faithful(api, truth, limit) ==>
      AllRows(FetchFundingHistory(api, limit, now, None), truth, HistoryStart(now, None), now)
  }

  /** Exactly which row limits suffice for the whole history of hourly settlements: 269 and more. */
  lemma {:induction false} HourlyLimitIff(limit: nat, now: int)
    ensures HourlyComplete(limit, now) <==> limit >= LEAF_ROWS
  {
    var from := HistoryStart(now, None);
    assert PowerOfTwo(0) == 1;
    if limit >= LEAF_ROWS {
      forall truth, api: Api | Spaced(truth, 3600) && Faithful(api, truth, limit)
        ensures AllRows(FetchFundingHistory(api, limit, now, None), truth, from, now)
      {
        HourlyFits(truth, limit, from, now, 0);
        FittingIsComplete(api, truth, limit, from, now, 0);
      }
    } else {
      var truth := EveryHour(from, now);
      EveryHourIsSpaced(from, now);
      EveryHourSpills(limit, from, now, now, 0);
      var t := UnfittingLosesOne(truth, limit, from, now, 0);
      EarliestIsFaithful(truth, limit);
      MissingRow(FetchFundingHistory(EarliestApi(truth, limit), limit, now, None), truth, from, now, t);
    }
  }
}
