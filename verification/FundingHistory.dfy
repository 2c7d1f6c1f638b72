/** Fetching a funding history through an API that caps every answer (daily_collector.py). */
module FundingHistory {
  import opened Sequences
  import opened StableSort
  import opened Timeline

  datatype Row = Row(ts: int, rate: real)

  /** What the API answers for a window, under a fixed symbol and row limit. */
  type Api = (int, int) -> seq<Row>

  const MAX_DAYS := 179
  const SECONDS_PER_DAY := 86_400
  const MAX_DEPTH := 4

  predicate RowNotLater(a: Row, b: Row) { a.ts <= b.ts }

  predicate InWindow(ts: int, from: int, to: int) { from <= ts <= to }

  /** The API answers true settlements of the window, each at most once, in any order, and leaves
      some out only when it answers at least `limit` of them. */
  ghost predicate Faithful(api: Api, truth: map<int, real>, limit: nat) {
    forall from, to :: WindowFaithful(api(from, to), truth, limit, from, to)
  }

  ghost predicate WindowFaithful(rows: seq<Row>, truth: map<int, real>, limit: nat, from: int, to: int) {
    && (forall r :: r in rows ==> r.ts in truth && truth[r.ts] == r.rate && InWindow(r.ts, from, to))
    && DistinctTimes(rows)
    && (|rows| < limit ==> forall t :: t in truth && InWindow(t, from, to) ==> Row(t, truth[t]) in rows)
  }

  // ---- Merging two halves ----

  function Times(rows: seq<Row>): seq<int> {
    if rows == [] then [] else Times(rows[..|rows| - 1]) + [rows[|rows| - 1].ts]
  }

  /** The last row given for a timestamp, as a dict built from the rows keeps it. */
  function LastAt(rows: seq<Row>, ts: int): Option<Row> {
    if rows == [] then None
    else if rows[|rows| - 1].ts == ts then Some(rows[|rows| - 1])
    else LastAt(rows[..|rows| - 1], ts)
  }

  function Pick(rows: seq<Row>, times: seq<int>): seq<Row> {
    if times == [] then []
    else
      var r := LastAt(rows, times[|times| - 1]);
      Pick(rows, times[..|times| - 1]) + if r.Some? then [r.value] else []
  }

  function Merge(rows: seq<Row>): seq<Row> { Pick(rows, SortedDistinct(Times(rows))) }

  function SplitNeeded(rows: nat, limit: nat, from: int, to: int, depth: nat): bool {
    rows >= limit && depth < MAX_DEPTH && to - from > SECONDS_PER_DAY
  }

  function Fetch(api: Api, limit: nat, from: int, to: int, depth: nat): seq<Row>
    requires depth <= MAX_DEPTH
    decreases MAX_DEPTH - depth
  {
    var rows := Sort(api(from, to), RowNotLater);
    if !SplitNeeded(|rows|, limit, from, to, depth) then rows
    else
      var mid := (from + to) / 2;
      Merge(Fetch(api, limit, from, mid, depth + 1) + Fetch(api, limit, mid + 1, to, depth + 1))
  }

  function Requests(api: Api, limit: nat, from: int, to: int, depth: nat): nat
    requires depth <= MAX_DEPTH
    decreases MAX_DEPTH - depth
  {
    if !SplitNeeded(|api(from, to)|, limit, from, to, depth) then 1
    else
      var mid := (from + to) / 2;
      1 + Requests(api, limit, from, mid, depth + 1) + Requests(api, limit, mid + 1, to, depth + 1)
  }

  /** No window that is not split any further was answered with a full page. */
  ghost predicate LeavesShort(api: Api, limit: nat, from: int, to: int, depth: nat)
    requires depth <= MAX_DEPTH
    decreases MAX_DEPTH - depth
  {
    if !SplitNeeded(|api(from, to)|, limit, from, to, depth) then |api(from, to)| < limit
    else
      var mid := (from + to) / 2;
      LeavesShort(api, limit, from, mid, depth + 1) && LeavesShort(api, limit, mid + 1, to, depth + 1)
  }

  /** The requested window: at most 179 days back, or from a later start. */
  function HistoryStart(now: int, start: Option<int>): int {
    var from := now - MAX_DAYS * SECONDS_PER_DAY;
    if start.Some? && start.value > from then start.value else from
  }

  function FetchFundingHistory(api: Api, limit: nat, now: int, start: Option<int>): seq<Row> {
    Fetch(api, limit, HistoryStart(now, start), now, 0)
  }

  // ---- Soundness and completeness ----

  lemma {:induction false} TimesFacts(rows: seq<Row>)
    ensures forall t :: t in Times(rows) <==> LastAt(rows, t).Some?
    ensures forall r :: r in rows ==> LastAt(rows, r.ts).Some?
    ensures forall t :: LastAt(rows, t).Some? ==> LastAt(rows, t).value in rows && LastAt(rows, t).value.ts == t
  {
    if rows != [] {
      TimesFacts(rows[..|rows| - 1]);
      assert rows == rows[..|rows| - 1] + [rows[|rows| - 1]];
    }
  }

  lemma {:induction false} PickFacts(rows: seq<Row>, times: seq<int>)
    ensures forall r :: r in Pick(rows, times) <==> r.ts in times && LastAt(rows, r.ts) == Some(r)
  {
    TimesFacts(rows);
    if times != [] {
      PickFacts(rows, times[..|times| - 1]);
      assert times == times[..|times| - 1] + [times[|times| - 1]];
    }
  }

  ghost predicate TrueRows(rows: seq<Row>, truth: map<int, real>, from: int, to: int) {
    forall r :: r in rows ==> r.ts in truth && truth[r.ts] == r.rate && InWindow(r.ts, from, to)
  }

  ghost predicate AllRows(rows: seq<Row>, truth: map<int, real>, from: int, to: int) {
    forall t :: t in truth && InWindow(t, from, to) ==> Row(t, truth[t]) in rows
  }

  lemma MergeFacts(left: seq<Row>, right: seq<Row>, truth: map<int, real>, from: int, mid: int, to: int)
    requires TrueRows(left, truth, from, mid) && TrueRows(right, truth, mid + 1, to) && from <= mid < to
    ensures TrueRows(Merge(left + right), truth, from, to)
    ensures AllRows(left, truth, from, mid) && AllRows(right, truth, mid + 1, to) ==>
              AllRows(Merge(left + right), truth, from, to)
  {
    var rows := left + right;
    var times := SortedDistinct(Times(rows));
    TimesFacts(rows);
    SortedDistinctFacts(Times(rows));
    PickFacts(rows, times);
    assert forall r :: r in rows <==> r in left || r in right;
    forall r | r in rows ensures r in Merge(rows) {
      assert LastAt(rows, r.ts).value in rows;
    }
  }

  /** The result never contains anything but true settlements of the window; it contains all of them
      whenever no final leaf was answered with a full page. */
  lemma {:induction false} FetchIsSoundAndComplete(api: Api, truth: map<int, real>, limit: nat, from: int, to: int, depth: nat)
    requires depth <= MAX_DEPTH && Faithful(api, truth, limit)
    ensures TrueRows(Fetch(api, limit, from, to, depth), truth, from, to)
    ensures LeavesShort(api, limit, from, to, depth) ==> AllRows(Fetch(api, limit, from, to, depth), truth, from, to)
    decreases MAX_DEPTH - depth
  {
    hide Merge, Sort, DistinctTimes, TrueRows, AllRows, Faithful, WindowFaithful;
    if SplitNeeded(|api(from, to)|, limit, from, to, depth) {
      var mid := (from + to) / 2;
      FetchIsSoundAndComplete(api, truth, limit, from, mid, depth + 1);
      FetchIsSoundAndComplete(api, truth, limit, mid + 1, to, depth + 1);
      MergeFacts(Fetch(api, limit, from, mid, depth + 1), Fetch(api, limit, mid + 1, to, depth + 1), truth, from, mid, to);
    }
    LeafFacts(api, truth, limit, from, to);
  }

  lemma LeafFacts(api: Api, truth: map<int, real>, limit: nat, from: int, to: int)
    requires Faithful(api, truth, limit)
    ensures TrueRows(Sort(api(from, to), RowNotLater), truth, from, to)
    ensures |api(from, to)| < limit ==> AllRows(Sort(api(from, to), RowNotLater), truth, from, to)
  {
    hide Sort, DistinctTimes;
    assert WindowFaithful(api(from, to), truth, limit, from, to);
    SortMembers(api(from, to), RowNotLater);
  }

  function PowerOfTwo(n: nat): nat { if n == 0 then 1 else 2 * PowerOfTwo(n - 1) }

  lemma RequestsUnfold(api: Api, limit: nat, from: int, to: int, depth: nat)
    requires depth <= MAX_DEPTH
    ensures var mid := (from + to) / 2;
            Requests(api, limit, from, to, depth) ==
              if !SplitNeeded(|api(from, to)|, limit, from, to, depth) then 1
              else 1 + Requests(api, limit, from, mid, depth + 1) + Requests(api, limit, mid + 1, to, depth + 1)
  {
  }

  lemma {:induction false} RequestsDouble(api: Api, limit: nat, from: int, to: int, depth: nat)
    requires depth <= MAX_DEPTH
    ensures Requests(api, limit, from, to, depth) <= PowerOfTwo(MAX_DEPTH + 1 - depth) - 1
    decreases MAX_DEPTH - depth
  {
    hide PowerOfTwo, Requests;
    PowerStep(MAX_DEPTH - depth);
    RequestsUnfold(api, limit, from, to, depth);
    if SplitNeeded(|api(from, to)|, limit, from, to, depth) {
      var mid := (from + to) / 2;
      RequestsDouble(api, limit, from, mid, depth + 1);
      RequestsDouble(api, limit, mid + 1, to, depth + 1);
    }
  }

  lemma {:induction false} PowerStep(n: nat)
    ensures PowerOfTwo(n + 1) == 2 * PowerOfTwo(n) && PowerOfTwo(n) >= 1
  {
    if n > 0 { PowerStep(n - 1); }
  }

  /** The recursion makes at most 31 requests, whatever the API answers. */
  lemma {:induction false} RequestsBounded(api: Api, limit: nat, now: int, start: Option<int>)
    ensures Requests(api, limit, HistoryStart(now, start), now, 0) <= 31
  {
    RequestsDouble(api, limit, HistoryStart(now, start), now, 0);
    assert PowerOfTwo(3) == 8;
    assert PowerOfTwo(5) == 32;
  }

  // ---- Why the depth suffices ----

  ghost predicate Spaced(truth: map<int, real>, gap: int) {
    forall t, u :: t in truth && u in truth && t < u ==> u - t >= gap
  }

  lemma {:induction false} SpacedRows(rows: seq<Row>, gap: int)
    requires rows != [] && forall i :: 0 < i < |rows| ==> rows[i].ts - rows[i - 1].ts >= gap
    ensures (|rows| - 1) * gap <= rows[|rows| - 1].ts - rows[0].ts
  {
    if |rows| > 1 {
      var front := rows[..|rows| - 1];
      SpacedRows(front, gap);
      assert (|rows| - 1) * gap == (|front| - 1) * gap + gap;
    }
  }

  /** Settlements an hour or more apart: a window of `width` seconds holds at most width/3600 + 1. */
  lemma WindowHoldsFew(rows: seq<Row>, truth: map<int, real>, limit: nat, from: int, to: int)
    requires WindowFaithful(rows, truth, limit, from, to) && Spaced(truth, 3600)
    ensures rows != [] ==> (|rows| - 1) * 3600 <= to - from
  {
    var sorted := Sort(rows, RowNotLater);
    SortIsOrderedPermutation(rows, RowNotLater);
    SortMembers(rows, RowNotLater);
    SortStaysDistinct(rows);
    if rows != [] {
      forall i | 0 < i < |sorted| ensures sorted[i].ts - sorted[i - 1].ts >= 3600 {
        assert sorted[i] in sorted && sorted[i - 1] in sorted;
        assert sorted[i - 1].ts != sorted[i].ts;
      }
      SpacedRows(sorted, 3600);
      assert sorted[0] in sorted && sorted[|sorted| - 1] in sorted;
    }
  }

  ghost predicate DistinctTimes(rows: seq<Row>) { forall i, j :: 0 <= i < j < |rows| ==> rows[i].ts != rows[j].ts }

  lemma {:induction false} InsertStaysDistinct(s: seq<Row>, x: Row)
    requires DistinctTimes(s) && forall r :: r in s ==> r.ts != x.ts
    ensures DistinctTimes(Insert(s, x, RowNotLater))
    ensures forall r :: r in Insert(s, x, RowNotLater) ==> r in s || r == x
  {
    if s == [] || RowNotLater(s[|s| - 1], x) {
    } else {
      var front, last := s[..|s| - 1], s[|s| - 1];
      assert last in s && forall r :: r in front ==> r in s;
      InsertStaysDistinct(front, x);
      var inner := Insert(front, x, RowNotLater);
      forall i | 0 <= i < |inner| ensures inner[i].ts != last.ts {
        assert inner[i] in inner;
        assert inner[i] in front ==> exists k :: 0 <= k < |front| && front[k] == inner[i];
      }
    }
  }

  lemma {:induction false} SortStaysDistinct(rows: seq<Row>)
    requires DistinctTimes(rows)
    ensures DistinctTimes(Sort(rows, RowNotLater))
  {
    if rows != [] {
      var front, last := rows[..|rows| - 1], rows[|rows| - 1];
      SortStaysDistinct(front);
      SortMembers(front, RowNotLater);
      forall r | r in Sort(front, RowNotLater) ensures r.ts != last.ts {
        assert r in front;
        var k :| 0 <= k < |front| && front[k] == r;
        assert rows[k].ts != rows[|rows| - 1].ts;
      }
      InsertStaysDistinct(Sort(front, RowNotLater), last);
    }
  }

  ghost predicate Ascending(rows: seq<Row>) { forall i, j :: 0 <= i < j < |rows| ==> rows[i].ts < rows[j].ts }

  lemma {:induction false} PickAscends(rows: seq<Row>, times: seq<int>)
    requires Increasing(times)
    ensures Ascending(Pick(rows, times))
    ensures forall r :: r in Pick(rows, times) ==> r.ts in times
  {
    if times != [] {
      var front, last := times[..|times| - 1], times[|times| - 1];
      assert times == front + [last];
      PickAscends(rows, front);
      TimesFacts(rows);
      hide LastAt;
      forall r | r in Pick(rows, front) ensures r.ts < last {
        var i :| 0 <= i < |front| && front[i] == r.ts;
        assert times[i] < times[|times| - 1];
      }
    }
  }

  lemma SortAscends(rows: seq<Row>)
    requires DistinctTimes(rows)
    ensures Ascending(Sort(rows, RowNotLater))
  {
    var sorted := Sort(rows, RowNotLater);
    SortIsOrderedPermutation(rows, RowNotLater);
    SortStaysDistinct(rows);
    forall i, j | 0 <= i < j < |sorted| ensures sorted[i].ts < sorted[j].ts { assert RowNotLater(sorted[i], sorted[j]); }
  }

  lemma MergeAscends(rows: seq<Row>)
    ensures Ascending(Merge(rows))
  {
    hide Ascending, Pick, SortedDistinct, Times;
    SortedDistinctFacts(Times(rows));
    PickAscends(rows, SortedDistinct(Times(rows)));
  }

  lemma LeafAscends(api: Api, truth: map<int, real>, limit: nat, from: int, to: int)
    requires Faithful(api, truth, limit)
    ensures Ascending(Sort(api(from, to), RowNotLater))
  {
    hide DistinctTimes, Ascending, Sort;
    assert WindowFaithful(api(from, to), truth, limit, from, to);
    SortAscends(api(from, to));
  }

  /** Whatever was fetched is in strictly ascending time order, so no settlement comes back twice. */
  lemma {:induction false} FetchAscends(api: Api, truth: map<int, real>, limit: nat, from: int, to: int, depth: nat)
    requires depth <= MAX_DEPTH && Faithful(api, truth, limit)
    ensures Ascending(Fetch(api, limit, from, to, depth))
  {
    hide DistinctTimes, Ascending, Sort, Merge, Faithful;
    if SplitNeeded(|api(from, to)|, limit, from, to, depth) {
      var mid := (from + to) / 2;
      MergeAscends(Fetch(api, limit, from, mid, depth + 1) + Fetch(api, limit, mid + 1, to, depth + 1));
    } else {
      LeafAscends(api, truth, limit, from, to);
    }
  }

  /** Half of the window, half of the width. */
  lemma {:induction false} HourlySettlementsFit(api: Api, truth: map<int, real>, limit: nat, from: int, to: int, depth: nat)
    requires depth <= MAX_DEPTH && Faithful(api, truth, limit) && Spaced(truth, 3600) && limit >= 270
    requires (to - from) * PowerOfTwo(depth) <= MAX_DAYS * SECONDS_PER_DAY
    ensures LeavesShort(api, limit, from, to, depth)
    decreases MAX_DEPTH - depth
  {
    var rows := api(from, to);
    assert WindowFaithful(rows, truth, limit, from, to);
    WindowHoldsFew(rows, truth, limit, from, to);
    if SplitNeeded(|rows|, limit, from, to, depth) {
      var mid := (from + to) / 2;
      HalfWidth(from, mid, to, PowerOfTwo(depth));
      HourlySettlementsFit(api, truth, limit, from, mid, depth + 1);
      HourlySettlementsFit(api, truth, limit, mid + 1, to, depth + 1);
    } else {
      assert PowerOfTwo(0) == 1 && PowerOfTwo(1) == 2 && PowerOfTwo(2) == 4 && PowerOfTwo(3) == 8 && PowerOfTwo(4) == 16;
    }
  }

  lemma HalfWidth(from: int, mid: int, to: int, scale: nat)
    requires mid == (from + to) / 2
    ensures (mid - from) * (2 * scale) <= (to - from) * scale
    ensures (to - (mid + 1)) * (2 * scale) <= (to - from) * scale
  {
    assert 2 * (mid - from) <= to - from && 2 * (to - mid - 1) <= to - from;
    Scaled(2 * (mid - from), to - from, scale);
    Scaled(2 * (to - mid - 1), to - from, scale);
    assert (mid - from) * (2 * scale) == 2 * (mid - from) * scale;
    assert (to - (mid + 1)) * (2 * scale) == 2 * (to - mid - 1) * scale;
  }

  lemma Scaled(a: int, b: int, scale: nat)
    requires a <= b
    ensures a * scale <= b * scale
  {
  }
}
