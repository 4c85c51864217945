/** The exact parts of backtester/engine/metrics.py: the win rate, the maximum drawdown, the
    simple-return series and the CAGR guard with its year count, plus the report that gathers
    them. An equity curve is the sequence of total-equity values, oldest first. */
module Metrics {
  import opened Wrappers
  import opened Floats
  import opened Series
  import opened Ledger

  /** The number of positive entries. */
  function CountPositive(xs: seq<real>): (n: nat)
    ensures n <= |xs|
  {
    if |xs| == 0 then 0
    else CountPositive(xs[..|xs| - 1]) + (if xs[|xs| - 1] > 0.0 then 1 else 0)
  }

  lemma {:induction false} CountPositiveExtremes(xs: seq<real>)
    ensures CountPositive(xs) == |xs| <==> forall i :: 0 <= i < |xs| ==> xs[i] > 0.0
    ensures CountPositive(xs) == 0 <==> forall i :: 0 <= i < |xs| ==> xs[i] <= 0.0
  {
    if |xs| > 0 {
      var init := xs[..|xs| - 1];
      CountPositiveExtremes(init);
      assert forall i :: 0 <= i < |init| ==> init[i] == xs[i];
    }
  }

  /** `calculate_win_rate`: the share of trades whose value is positive, 0 for no trades. */
  function WinRate(history: TradeTable): (rate: real)
    requires history.WellFormed()
    ensures 0.0 <= rate <= 1.0
    ensures history.Length() == 0 ==> rate == 0.0
    ensures rate == 1.0 <==> history.Length() > 0 && forall i :: 0 <= i < history.Length() ==> history.value[i] > 0.0
    ensures rate == 0.0 <==> forall i :: 0 <= i < history.Length() ==> history.value[i] <= 0.0
  {
    CountPositiveExtremes(history.value);
    if history.Length() == 0 then 0.0
    else
      Ratio(CountPositive(history.value), history.Length());
      (CountPositive(history.value) as real) / (history.Length() as real)
  }

  /** A count out of a positive total is a fraction in [0, 1], at the ends exactly for none
      and for all. */
  lemma Ratio(count: nat, total: nat)
    requires 0 < total && count <= total
    ensures 0.0 <= (count as real) / (total as real) <= 1.0
    ensures (count as real) / (total as real) == 1.0 <==> count == total
    ensures (count as real) / (total as real) == 0.0 <==> count == 0
  {
    var r := (count as real) / (total as real);
    assert r * (total as real) == count as real;
  }

  /** The position of a largest value among e_0 .. e_i (the earliest one on ties). */
  function PeakIndex(e: seq<real>, i: nat): (k: nat)
    requires i < |e|
    ensures k <= i
    ensures forall j :: 0 <= j <= i ==> e[j] <= e[k]
  {
    if i == 0 then 0
    else
      var k := PeakIndex(e, i - 1);
      if e[i] > e[k] then i else k
  }

  /** `expanding().max()`: entry i is the largest of the first i + 1 values. */
  function RunningMax(e: seq<real>): (m: seq<real>)
    ensures |m| == |e|
    ensures forall i, j :: 0 <= j <= i < |e| ==> e[j] <= m[i]
  {
    seq(|e|, i requires 0 <= i < |e| => e[PeakIndex(e, i)])
  }

  /** The expanding maximum is attained, and looks no further than its own point: it is the
      same on every prefix that contains the point. */
  lemma {:induction false} RunningMaxPrefix(e: seq<real>, n: nat, i: nat)
    requires i < n <= |e|
    ensures RunningMax(e[..n])[i] == RunningMax(e)[i]
    ensures exists k :: 0 <= k <= i && RunningMax(e)[i] == e[k]
  {
    PeakIndexPrefix(e, n, i);
  }

  lemma {:induction false} PeakIndexPrefix(e: seq<real>, n: nat, i: nat)
    requires i < n <= |e|
    ensures PeakIndex(e[..n], i) == PeakIndex(e, i)
  {
    if i > 0 {
      PeakIndexPrefix(e, n, i - 1);
    }
  }

  /** `(equity - running_max) / running_max`, point by point. */
  function Drawdowns(e: seq<real>): (d: Column)
    ensures |d| == |e|
  {
    seq(|e|, i requires 0 <= i < |e| => PointDrawdown(e, i))
  }

  /** The drawdown at point i: (e_i - m_i) / m_i, with numpy's 0/0 = NaN and x/0 = -inf. */
  function PointDrawdown(e: seq<real>, i: nat): Float
    requires i < |e|
  {
    var top := RunningMax(e)[i];
    Quotient(e[i] - top, top)
  }

  /** pandas' `min`, which skips NaN and is NaN when nothing is left. */
  function MinSkipNaN(c: Column): (r: Float)
    ensures r.NaN? <==> forall i :: 0 <= i < |c| ==> c[i].NaN?
    ensures !r.NaN? ==> r in c && forall i :: 0 <= i < |c| && !c[i].NaN? ==> LessEq(r, c[i])
  {
    if |c| == 0 then NaN
    else
      var init := c[..|c| - 1];
      var rest := MinSkipNaN(init);
      var last := c[|c| - 1];
      assert forall i :: 0 <= i < |init| ==> init[i] == c[i];
      assert rest in init ==> rest in c;
      if rest.NaN? then last
      else if last.NaN? || !Less(last, rest) then
        assert forall i :: 0 <= i < |c| && !c[i].NaN? ==> LessEq(rest, c[i]) by {
          LessEqTransitive(rest, last);
        }
        rest
      else
        assert forall i :: 0 <= i < |c| && !c[i].NaN? ==> LessEq(last, c[i]) by {
          LessFacts(last, rest, init);
        }
        last
  }

  lemma LessEqTransitive(rest: Float, last: Float)
    requires !rest.NaN?
    ensures !last.NaN? && !Less(last, rest) ==> LessEq(rest, last)
  {
  }

  lemma LessFacts(last: Float, rest: Float, init: Column)
    requires Less(last, rest)
    requires forall i :: 0 <= i < |init| && !init[i].NaN? ==> LessEq(rest, init[i])
    ensures forall i :: 0 <= i < |init| && !init[i].NaN? ==> LessEq(last, init[i])
    ensures LessEq(last, last)
  {
  }

  /** `calculate_max_drawdown`: the least defined drawdown of the curve, NaN when none is
      defined (in particular for an empty curve). */
  function MaxDrawdown(e: seq<real>): (r: Float)
    ensures r.NaN? <==> forall i :: 0 <= i < |e| ==> Drawdowns(e)[i].NaN?
    ensures !r.NaN? ==> && r in Drawdowns(e)
                        && forall i :: 0 <= i < |e| && !Drawdowns(e)[i].NaN? ==> LessEq(r, Drawdowns(e)[i])
  {
    MinSkipNaN(Drawdowns(e))
  }

  /** Below a positive peak the drawdown (x - top) / top is a finite value in (-1, 0]. */
  lemma DrawdownRatio(x: real, top: real) returns (q: real)
    requires 0.0 < x <= top
    ensures Quotient(x - top, top) == Finite(q)
    ensures -1.0 < q <= 0.0
  {
    q := (x - top) / top;
    assert q * top == x - top;
  }

  /** For a positive curve every drawdown is a finite value in (-1, 0]. */
  lemma DrawdownsBounded(e: seq<real>, i: int)
    requires forall j :: 0 <= j < |e| ==> e[j] > 0.0
    requires 0 <= i < |e|
    ensures Drawdowns(e)[i].Finite? && -1.0 < Drawdowns(e)[i].v <= 0.0
  {
    var top := PeakBelow(e, i);
    var q := DrawdownRatio(e[i], top);
  }

  /** The running maximum at a point of a positive curve is positive and at least that point. */
  lemma PeakBelow(e: seq<real>, i: int) returns (top: real)
    requires forall j :: 0 <= j < |e| ==> e[j] > 0.0
    requires 0 <= i < |e|
    ensures top == RunningMax(e)[i] && 0.0 < e[i] <= top
  {
    top := RunningMax(e)[i];
    var k := PeakIndex(e, i);
    assert top == e[k];
  }

  /** Over finite values, the NaN-skipping minimum is the least of them. */
  lemma MinOfFinite(c: Column)
    requires |c| > 0 && AllFinite(c)
    ensures MinSkipNaN(c).Finite? && MinSkipNaN(c) in c
    ensures forall i :: 0 <= i < |c| ==> MinSkipNaN(c).v <= c[i].v
  {
    var r := MinSkipNaN(c);
    assert !c[0].NaN?;
    forall i | 0 <= i < |c|
      ensures r.v <= c[i].v
    {
      assert LessEq(r, c[i]);
    }
  }

  /** For a positive curve the maximum drawdown is the smallest drawdown, a finite value in
      (-1, 0]; an empty curve has none (NaN). */
  lemma MaxDrawdownBounds(e: seq<real>)
    requires forall i :: 0 <= i < |e| ==> e[i] > 0.0
    ensures |e| == 0 ==> MaxDrawdown(e).NaN?
    ensures |e| > 0 ==> && MaxDrawdown(e) in Drawdowns(e)
                        && MaxDrawdown(e).Finite? && -1.0 < MaxDrawdown(e).v <= 0.0
                        && forall i :: 0 <= i < |e| ==>
                             Drawdowns(e)[i].Finite? && MaxDrawdown(e).v <= Drawdowns(e)[i].v
  {
    var d := Drawdowns(e);
    forall i | 0 <= i < |d|
      ensures d[i].Finite? && -1.0 < d[i].v <= 0.0
    {
      DrawdownsBounded(e, i);
    }
    if |e| > 0 {
      MinOfFinite(d);
    }
  }

  /** The first point never contributes a drawdown. */
  lemma FirstDrawdownIsZero(e: seq<real>)
    requires |e| > 0 && e[0] != 0.0
    ensures Drawdowns(e)[0] == Finite(0.0)
  {
  }

  /** A non-decreasing positive curve has no drawdown at all. */
  lemma NonDecreasingHasNoDrawdown(e: seq<real>)
    requires |e| > 0 && e[0] > 0.0
    requires forall i, j :: 0 <= i <= j < |e| ==> e[i] <= e[j]
    ensures MaxDrawdown(e) == Finite(0.0)
  {
    var d := Drawdowns(e);
    forall i | 0 <= i < |d|
      ensures d[i] == Finite(0.0)
    {
      NoDrawdownAt(e, i);
    }
    MinOfFinite(d);
    var r := MinSkipNaN(d);
    var j :| 0 <= j < |d| && d[j] == r;
  }

  lemma NoDrawdownAt(e: seq<real>, i: int)
    requires 0 <= i < |e| && e[0] > 0.0
    requires forall j :: 0 <= j <= i ==> e[j] <= e[i]
    ensures Drawdowns(e)[i] == Finite(0.0)
  {
    var top := PeakAtLast(e, i);
    ZeroOver(top);
  }

  /** When a point is the largest so far, the running maximum there is that point. */
  lemma PeakAtLast(e: seq<real>, i: int) returns (top: real)
    requires 0 <= i < |e| && e[0] > 0.0
    requires forall j :: 0 <= j <= i ==> e[j] <= e[i]
    ensures top == RunningMax(e)[i] && top == e[i] && top != 0.0
  {
    var k := PeakIndex(e, i);
    assert e[k] <= e[i] && e[0] <= e[k];
    top := RunningMax(e)[i];
    assert top == e[k];
  }

  lemma ZeroOver(x: real)
    requires x != 0.0
    ensures Quotient(0.0, x) == Finite(0.0)
  {
  }

  /** A curve that halves and recovers has a maximum drawdown of -50%. */
  lemma HalvingDrawdown()
    ensures MaxDrawdown([100.0, 50.0, 100.0]) == Finite(-0.5)
  {
    var d := Drawdowns([100.0, 50.0, 100.0]);
    HalvingCurve();
    var r := MinSkipNaN(d);
    assert !d[1].NaN?;
    assert LessEq(r, d[1]);
  }

  lemma HalvingCurve()
    ensures Drawdowns([100.0, 50.0, 100.0]) == [Finite(0.0), Finite(-0.5), Finite(0.0)]
  {
    var e := [100.0, 50.0, 100.0];
    assert PeakIndex(e, 0) == 0;
    assert PeakIndex(e, 1) == 0;
    assert PeakIndex(e, 2) == 0;
    assert RunningMax(e) == [100.0, 100.0, 100.0];
  }

  /** `pct_change()`: NaN at the first point, then the change from each point to the next. */
  function PctChange(e: seq<real>): (c: Column)
    ensures |c| == |e|
    ensures |e| > 0 ==> c[0].NaN?
    ensures forall i :: 0 < i < |e| && e[i - 1] != 0.0 ==> c[i] == Finite(e[i] / e[i - 1] - 1.0)
    ensures forall i :: 0 < i < |e| && e[i - 1] == 0.0 ==> c[i].NaN? || c[i].PosInf? || c[i].NegInf?
  {
    seq(|e|, i requires 0 <= i < |e| => if i == 0 then NaN else Change(e[i - 1], e[i]))
  }

  /** `cur / prev - 1` in float arithmetic: the relative change, or, after a zero, NaN (0/0)
      or an infinity. */
  function Change(prev: real, cur: real): (c: Float)
    ensures prev != 0.0 ==> c == Finite(cur / prev - 1.0)
    ensures prev == 0.0 ==> c.NaN? || c.PosInf? || c.NegInf?
  {
    Sub(Quotient(cur, prev), Finite(1.0))
  }

  /** `dropna()`: the entries that are not NaN, in order; infinities stay. */
  function DropNaN(c: Column): (r: Column)
    ensures |r| <= |c|
    ensures forall i :: 0 <= i < |r| ==> !r[i].NaN?
    ensures forall x :: x in c && !x.NaN? ==> x in r
    ensures forall x :: x in r ==> x in c
    ensures (forall i :: 0 <= i < |c| ==> !c[i].NaN?) ==> r == c
  {
    if |c| == 0 then []
    else
      var init := c[..|c| - 1];
      var r := DropNaN(init);
      assert (forall i :: 0 <= i < |c| ==> !c[i].NaN?) ==> forall i :: 0 <= i < |init| ==> !init[i].NaN?;
      assert init + [c[|c| - 1]] == c;
      if c[|c| - 1].NaN? then r else r + [c[|c| - 1]]
  }

  /** Dropping NaN entry by entry: a single entry is dropped exactly when it is NaN ... */
  lemma DropNaNSingle(x: Float)
    ensures DropNaN([x]) == if x.NaN? then [] else [x]
  {
    assert [x][..0] == [];
  }

  /** ... and the result for a concatenation is the concatenation of the results. With
      DropNaNSingle this pins the kept entries down to exactly the non-NaN ones, in their
      original order. */
  lemma {:induction false} DropNaNAppend(a: Column, b: Column)
    ensures DropNaN(a + b) == DropNaN(a) + DropNaN(b)
    decreases |b|
  {
    if |b| > 0 {
      var init := b[..|b| - 1];
      assert (a + b)[..|a + b| - 1] == a + init;
      DropNaNAppend(a, init);
    } else {
      assert a + b == a;
    }
  }

  /** The simple-return series of the report: the defined percentage changes, fewer than the
      points since the first change is always undefined. Every finite or infinite change is
      kept, and nothing else enters. */
  function Returns(e: seq<real>): (r: Column)
    ensures |e| > 0 ==> |r| < |e|
    ensures |e| == 0 ==> r == []
    ensures forall i :: 0 <= i < |r| ==> !r[i].NaN?
    ensures forall i :: 0 < i < |e| && !PctChange(e)[i].NaN? ==> PctChange(e)[i] in r
    ensures forall x :: x in r ==> x in PctChange(e)
  {
    var c := PctChange(e);
    if |e| == 0 then DropNaN(c)
    else
      assert c == [c[0]] + c[1..];
      DropNaNAppend([c[0]], c[1..]);
      DropNaNSingle(c[0]);
      assert c[0] in c;
      assert forall i :: 0 < i < |e| ==> c[i] in c;
      DropNaN(c)
  }

  /** With no zero in the curve, the returns are r_i = e_(i+1) / e_i - 1: one fewer than the
      points, the first point contributing none. */
  lemma ReturnsOfNonZeroCurve(e: seq<real>)
    requires |e| > 0
    requires forall i :: 0 <= i < |e| ==> e[i] != 0.0
    ensures |Returns(e)| == |e| - 1
    ensures forall i :: 0 <= i < |e| - 1 ==> Returns(e)[i] == Finite(e[i + 1] / e[i] - 1.0)
  {
    var c := PctChange(e);
    ReturnsShape(c);
    forall i | 0 <= i < |e| - 1
      ensures Returns(e)[i] == Finite(e[i + 1] / e[i] - 1.0)
    {
      assert Returns(e)[i] == c[i + 1];
      SubFinite(e[i + 1] / e[i], 1.0);
    }
  }

  /** Dropping a leading NaN from an otherwise defined column keeps the rest in place. */
  lemma {:induction false} ReturnsShape(c: Column)
    requires |c| > 0 && c[0].NaN?
    requires forall i :: 1 <= i < |c| ==> !c[i].NaN?
    ensures DropNaN(c) == c[1..]
    decreases |c|
  {
    if |c| > 1 {
      var init := c[..|c| - 1];
      ReturnsShape(init);
      assert init[1..] + [c[|c| - 1]] == c[1..];
    }
  }

  /** A report entry: an exact value, the two terms of the CAGR power (whose evaluation is not
      modelled), or the series a standard-deviation statistic is taken of. */
  datatype Entry = Exact(value: Float) | Compound(totalReturn: Float, years: real)
                 | Statistic(series: Column)

  /** `calculate_cagr` up to its final power: 0 for fewer than two points, otherwise the total
      return and a year count that counts points, not intervals. */
  function Cagr(e: seq<real>, periodsPerYear: int): (r: Result<Entry, ZeroDivisionError>)
    ensures |e| < 2 ==> r == Ok(Exact(Finite(0.0)))
    ensures |e| >= 2 ==> (r.Ok? <==> periodsPerYear != 0)
    ensures |e| >= 2 && r.Ok? ==>
              && r.value.Compound?
              && r.value.years * (periodsPerYear as real) == |e| as real
              && (e[0] != 0.0 ==> r.value.totalReturn == Finite(e[|e| - 1] / e[0] - 1.0))
  {
    if |e| < 2 then Ok(Exact(Finite(0.0)))
    else if periodsPerYear == 0 then Err(ZeroDivisionError)
    else
      var totalReturn := Sub(Quotient(e[|e| - 1], e[0]), Finite(1.0));
      Ok(Compound(totalReturn, (|e| as real) / (periodsPerYear as real)))
  }

  /** A year of daily points at 252 periods per year counts as one year, although it spans only
      251 intervals. */
  lemma CagrCountsPoints(e: seq<real>)
    requires |e| == 252
    ensures Cagr(e, 252).Ok? && Cagr(e, 252).value.years == 1.0
  {
  }

  const Keys: set<string> := {"Sharpe Ratio", "Max Drawdown", "Win Rate", "CAGR", "Volatility"}

  /** `generate_performance_report`. The Sharpe ratio and the volatility are recorded as the
      series their standard deviation is taken of (the excess returns and the returns);
      a year of zero periods is the ZeroDivisionError of the risk-free rate's division. */
  function PerformanceReport(e: seq<real>, history: TradeTable, riskFreeRate: real := 0.01,
                             periodsPerYear: int := 252)
    : (r: Result<map<string, Entry>, ZeroDivisionError>)
    requires history.WellFormed()
    ensures r.Ok? <==> periodsPerYear != 0
    ensures r.Ok? ==> r.value.Keys == Keys
    ensures r.Ok? ==> && r.value["Max Drawdown"] == Exact(MaxDrawdown(e))
                      && r.value["Win Rate"] == Exact(Finite(WinRate(history)))
                      && Ok(r.value["CAGR"]) == Cagr(e, periodsPerYear)
                      && r.value["Volatility"] == Statistic(Returns(e))
                      && r.value["Sharpe Ratio"].Statistic?
                      && |r.value["Sharpe Ratio"].series| == |Returns(e)|
  {
    if periodsPerYear == 0 then Err(ZeroDivisionError)
    else
      var simple := Returns(e);
      var riskFreePerPeriod := Finite(riskFreeRate / (periodsPerYear as real));
      var excessReturns := seq(|simple|, i requires 0 <= i < |simple| => Sub(simple[i], riskFreePerPeriod));
      var drawdown := MaxDrawdown(e);
      var winRate := WinRate(history);
      var cagr := Cagr(e, periodsPerYear);
      Ok(Report(excessReturns, drawdown, winRate, cagr.value, simple))
  }

  /** The five-entry dictionary of the report. */
  function Report(excessReturns: Column, drawdown: Float, winRate: real, cagr: Entry,
                  simple: Column): (m: map<string, Entry>)
    ensures m.Keys == Keys
    ensures m["Sharpe Ratio"] == Statistic(excessReturns) && m["Max Drawdown"] == Exact(drawdown)
    ensures m["Win Rate"] == Exact(Finite(winRate)) && m["CAGR"] == cagr
    ensures m["Volatility"] == Statistic(simple)
  {
    map["Sharpe Ratio" := Statistic(excessReturns),
        "Max Drawdown" := Exact(drawdown),
        "Win Rate" := Exact(Finite(winRate)),
        "CAGR" := cagr,
        "Volatility" := Statistic(simple)]
  }
}
