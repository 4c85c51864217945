/** Column arithmetic shared by the strategies and the metrics: sums and means over reals,
    pandas' `rolling(window).mean()`, `diff()`, element-wise comparison masks and the
    `df.loc[mask, col] = v` overwrite. A column is a sequence of Floats; NaN marks a missing
    entry. */
module Series {
  import opened Floats

  type Column = seq<Float>

  function Finites(xs: seq<real>): (c: Column)
    ensures |c| == |xs|
  {
    seq(|xs|, i requires 0 <= i < |xs| => Finite(xs[i]))
  }

  function Constant(n: nat, v: Float): (c: Column)
    ensures |c| == n
  {
    seq(n, i requires 0 <= i < n => v)
  }

  predicate AllFinite(c: Column)
  {
    forall i :: 0 <= i < |c| ==> c[i].Finite?
  }

  function Sum(xs: seq<real>): real
  {
    if |xs| == 0 then 0.0 else Sum(xs[..|xs| - 1]) + xs[|xs| - 1]
  }

  function Mean(xs: seq<real>): real
    requires |xs| > 0
  {
    Sum(xs) / (|xs| as real)
  }

  lemma {:induction false} SumBounds(xs: seq<real>, lo: real, hi: real)
    requires forall i :: 0 <= i < |xs| ==> lo <= xs[i] <= hi
    ensures (|xs| as real) * lo <= Sum(xs) <= (|xs| as real) * hi
  {
    if |xs| > 0 {
      var init := xs[..|xs| - 1];
      SumBounds(init, lo, hi);
      assert (|xs| as real) * lo == (|init| as real) * lo + lo;
      assert (|xs| as real) * hi == (|init| as real) * hi + hi;
    }
  }

  /** A mean lies between any lower and upper bound of its values. */
  lemma MeanWithin(xs: seq<real>, lo: real, hi: real)
    requires |xs| > 0
    requires forall i :: 0 <= i < |xs| ==> lo <= xs[i] <= hi
    ensures lo <= Mean(xs) <= hi
  {
    SumBounds(xs, lo, hi);
    var n := |xs| as real;
    assert Sum(xs) / n >= lo by {
      assert Sum(xs) >= n * lo;
    }
    assert Sum(xs) / n <= hi by {
      assert Sum(xs) <= n * hi;
    }
  }

  lemma {:induction false} SumAtLeast(xs: seq<real>, lo: real)
    requires forall i :: 0 <= i < |xs| ==> lo <= xs[i]
    ensures (|xs| as real) * lo <= Sum(xs)
  {
    if |xs| > 0 {
      var init := xs[..|xs| - 1];
      SumAtLeast(init, lo);
      assert (|xs| as real) * lo == (|init| as real) * lo + lo;
    }
  }

  /** `rolling(window=w).mean()` over values without NaN: entry i is the mean of the w values
      ending at i, and NaN while fewer than w values have been seen. pandas accepts a window
      of 0, whose windows are empty: every mean is NaN. */
  function RollingMean(xs: seq<real>, w: int): (c: Column)
    requires w >= 0
    ensures |c| == |xs|
  {
    seq(|xs|, i requires 0 <= i < |xs| =>
      if w == 0 || i + 1 < w then NaN else Finite(Mean(xs[i + 1 - w..i + 1])))
  }

  /** Entry i of a rolling mean is missing exactly for the first w - 1 rows (every row for a
      window of 0), and otherwise stays within the bounds of the values it averages. */
  lemma RollingMeanWithin(xs: seq<real>, w: int, lo: real, hi: real, i: int)
    requires w >= 0 && 0 <= i < |xs|
    requires forall j :: 0 <= j && i + 1 - w <= j <= i ==> lo <= xs[j] <= hi
    ensures RollingMean(xs, w)[i].NaN? <==> w == 0 || i < w - 1
    ensures RollingMean(xs, w)[i].NaN? || RollingMean(xs, w)[i].Finite?
    ensures RollingMean(xs, w)[i].Finite? ==> lo <= RollingMean(xs, w)[i].v <= hi
  {
    if w > 0 && i + 1 >= w {
      var window := xs[i + 1 - w..i + 1];
      assert forall j :: 0 <= j < |window| ==> window[j] == xs[i + 1 - w + j];
      MeanWithin(window, lo, hi);
    }
  }

  /** A rolling mean is never infinite: it is a mean or missing. */
  lemma RollingMeanDefined(xs: seq<real>, w: int, i: int)
    requires w >= 0 && 0 <= i < |xs|
    ensures RollingMean(xs, w)[i].NaN? || RollingMean(xs, w)[i].Finite?
  {
  }

  /** A rolling mean of values bounded below is bounded below wherever it is defined. */
  lemma RollingMeanAtLeast(xs: seq<real>, w: int, lo: real, i: int)
    requires w >= 0 && 0 <= i < |xs|
    requires forall j :: 0 <= j < |xs| ==> lo <= xs[j]
    ensures RollingMean(xs, w)[i].Finite? ==> lo <= RollingMean(xs, w)[i].v
  {
    if w > 0 && i + 1 >= w {
      var window := xs[i + 1 - w..i + 1];
      assert forall j :: 0 <= j < |window| ==> window[j] == xs[i + 1 - w + j];
      SumAtLeast(window, lo);
      var n := |window| as real;
      assert Sum(window) / n >= lo by {
        assert Sum(window) >= n * lo;
      }
    }
  }

  /** `diff()`: NaN in the first row, then the change from the previous row. */
  function Diff(c: Column): (d: Column)
    ensures |d| == |c|
  {
    seq(|c|, i requires 0 <= i < |c| => if i == 0 then NaN else Sub(c[i], c[i - 1]))
  }

  /** Element-wise arithmetic of two aligned columns, as pandas applies it. */
  function Plus(a: Column, b: Column): (r: Column)
    requires |a| == |b|
    ensures |r| == |a|
  {
    seq(|a|, i requires 0 <= i < |a| => Add(a[i], b[i]))
  }

  function Minus(a: Column, b: Column): (r: Column)
    requires |a| == |b|
    ensures |r| == |a|
  {
    seq(|a|, i requires 0 <= i < |a| => Sub(a[i], b[i]))
  }

  function Scale(a: Column, k: real): (r: Column)
    ensures |r| == |a|
  {
    seq(|a|, i requires 0 <= i < |a| => Mul(a[i], Finite(k)))
  }

  function Over(a: Column, b: Column): (r: Column)
    requires |a| == |b|
    ensures |r| == |a|
  {
    seq(|a|, i requires 0 <= i < |a| => Div(a[i], b[i]))
  }

  /** The element-wise comparison `a <rel> b` of two columns, false where either is NaN. */
  function Mask(a: Column, rel: Relation, b: Column): (m: seq<bool>)
    requires |a| == |b|
    ensures |m| == |a|
  {
    seq(|a|, i requires 0 <= i < |a| => Holds(a[i], rel, b[i]))
  }

  /** `df.loc[mask, col] = v`: every masked row takes v, the others keep their value. */
  function Where(c: Column, mask: seq<bool>, v: Float): (r: Column)
    requires |mask| == |c|
    ensures |r| == |c|
  {
    seq(|c|, i requires 0 <= i < |c| => if mask[i] then v else c[i])
  }

  /** A discrete trading signal: -1 (sell), 0 (hold) or 1 (buy). */
  predicate IsSignal(x: Float)
  {
    x == Finite(-1.0) || x == Finite(0.0) || x == Finite(1.0)
  }

  /** The first difference of a signal column: NaN only in the first row, an integer step in
      [-2, 2] afterwards, and non-zero exactly where the signal changes. */
  lemma {:induction false} SignalDiff(s: Column, i: int)
    requires forall j :: 0 <= j < |s| ==> IsSignal(s[j])
    requires 0 <= i < |s|
    ensures Diff(s)[i].NaN? <==> i == 0
    ensures i > 0 ==> Diff(s)[i].Finite? && -2.0 <= Diff(s)[i].v <= 2.0
    ensures i > 0 ==> (Diff(s)[i] != Finite(0.0) <==> s[i] != s[i - 1])
  {
    if i > 0 {
      var a, b := s[i], s[i - 1];
      assert IsSignal(a) && IsSignal(b);
      assert Diff(s)[i] == Sub(a, b);
      SubFinite(a.v, b.v);
    }
  }
}
