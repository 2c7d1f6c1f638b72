/** Equity, peak and drawdown of a sequence of trade results, starting from zero equity. */
module EquityCurve {
  import opened Sequences

  datatype Point = Point(cumulative: real, peak: real, drawdown: real)

  /** Equity after the first `n` trades. */
  function Equity(values: seq<real>, n: nat): real
    requires n <= |values|
  {
    SumReals(values[..n])
  }

  lemma EquityStep(values: seq<real>, n: nat)
    requires n < |values|
    ensures Equity(values, n + 1) == Equity(values, n) + values[n]
  {
    assert values[..n + 1][..n] == values[..n];
  }

  /** `d` is the largest fall from an equity reached earlier to one reached later, zero included. */
  ghost predicate IsMaxDrawdown(values: seq<real>, n: nat, d: real)
    requires n <= |values|
  {
    && (forall i: nat, j: nat :: i <= j <= n ==> Equity(values, i) - Equity(values, j) <= d)
    && (exists i: nat, j: nat :: i <= j <= n && Equity(values, i) - Equity(values, j) == d)
  }

  /** `p` is the highest equity reached, counting the zero at the start. */
  ghost predicate IsPeak(values: seq<real>, n: nat, p: real)
    requires n <= |values|
  {
    && (forall i: nat :: i <= n ==> Equity(values, i) <= p)
    && (exists i: nat :: i <= n && Equity(values, i) == p)
  }

  lemma PeakStep(values: seq<real>, n: nat, p: real)
    requires n < |values| && IsPeak(values, n, p)
    ensures IsPeak(values, n + 1, Max(p, Equity(values, n + 1)))
  {
    var i: nat :| i <= n && Equity(values, i) == p;
    assert i <= n + 1;
  }

  /** The streaming update is the pairwise definition, one trade further. */
  lemma DrawdownStep(values: seq<real>, n: nat, p: real, d: real)
    requires n < |values| && IsPeak(values, n + 1, p) && IsMaxDrawdown(values, n, d)
    ensures IsMaxDrawdown(values, n + 1, Max(d, p - Equity(values, n + 1)))
  {
    hide Equity;
    var i: nat :| i <= n + 1 && Equity(values, i) == p;
    var a: nat, b: nat :| a <= b <= n && Equity(values, a) - Equity(values, b) == d;
    assert a <= b <= n + 1 && i <= n + 1 <= n + 1;
  }

  lemma DrawdownStart(values: seq<real>)
    ensures IsPeak(values, 0, 0.0) && IsMaxDrawdown(values, 0, 0.0)
  {
    assert Equity(values, 0) == 0.0;
    assert Equity(values, 0) - Equity(values, 0) == 0.0;
  }

  /** The single pass that keeps equity, peak and maximum drawdown. */
  method Drawdown(values: seq<real>) returns (equity: real, peak: real, maxDrawdown: real)
    ensures equity == SumReals(values)
    ensures IsPeak(values, |values|, peak)
    ensures IsMaxDrawdown(values, |values|, maxDrawdown)
  {
    hide Equity;
    hide IsPeak;
    hide IsMaxDrawdown;
    equity, peak, maxDrawdown := 0.0, 0.0, 0.0;
    DrawdownStart(values);
    EquityWhole(values);
    for k := 0 to |values|
      invariant equity == Equity(values, k)
      invariant IsPeak(values, k, peak)
      invariant IsMaxDrawdown(values, k, maxDrawdown)
    {
      EquityStep(values, k);
      PeakStep(values, k, peak);
      equity := equity + values[k];
      peak := Max(peak, equity);
      DrawdownStep(values, k, peak, maxDrawdown);
      maxDrawdown := Max(maxDrawdown, peak - equity);
    }
  }

  lemma EquityWhole(values: seq<real>)
    ensures Equity(values, |values|) == SumReals(values) && Equity(values, 0) == 0.0
  {
    assert values[..|values|] == values;
  }

  /** The curve of the backtest report: one point per trade. */
  method BuildCurve(values: seq<real>) returns (curve: seq<Point>)
    ensures |curve| == |values|
    ensures forall k :: 0 <= k < |curve| ==>
              && curve[k].cumulative == Equity(values, k + 1)
              && IsPeak(values, k + 1, curve[k].peak)
              && curve[k].drawdown == curve[k].peak - curve[k].cumulative
  {
    hide Equity;
    hide IsMaxDrawdown;
    EquityWhole(values);
    var cumulative, peak := 0.0, 0.0;
    curve := [];
    DrawdownStart(values);
    for k := 0 to |values|
      invariant |curve| == k
      invariant cumulative == Equity(values, k) && IsPeak(values, k, peak)
      invariant forall i :: 0 <= i < k ==>
                  && curve[i].cumulative == Equity(values, i + 1)
                  && IsPeak(values, i + 1, curve[i].peak)
                  && curve[i].drawdown == curve[i].peak - curve[i].cumulative
    {
      EquityStep(values, k);
      PeakStep(values, k, peak);
      cumulative := cumulative + values[k];
      peak := Max(peak, cumulative);
      curve := curve + [Point(cumulative, peak, Max(0.0, peak - cumulative))];
    }
  }

  function LargestDrawdown(curve: seq<Point>): real {
    if curve == [] then 0.0 else Max(LargestDrawdown(curve[..|curve| - 1]), curve[|curve| - 1].drawdown)
  }

  /** The largest drawdown of the curve's points is the largest fall between any two equities. */
  lemma {:induction false} CurveDrawdownIsPairwise(values: seq<real>, curve: seq<Point>, n: nat)
    requires n <= |curve| == |values|
    requires forall k :: 0 <= k < n ==>
               IsPeak(values, k + 1, curve[k].peak) && curve[k].drawdown == curve[k].peak - Equity(values, k + 1)
    ensures IsMaxDrawdown(values, n, LargestDrawdown(curve[..n]))
  {
    hide Equity;
    hide IsPeak;
    hide IsMaxDrawdown;
    if n == 0 {
      DrawdownStart(values);
    } else {
      CurveDrawdownIsPairwise(values, curve, n - 1);
      assert curve[..n][..n - 1] == curve[..n - 1];
      DrawdownStep(values, n - 1, curve[n - 1].peak, LargestDrawdown(curve[..n - 1]));
    }
  }
}
