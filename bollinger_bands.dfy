/** The Bollinger-band strategy of backtester/strategies/bollinger_bands.py: bands k standard
    deviations around the rolling mean of the close, a buy signal at or below the lower band, a
    sell signal at or above the upper band, optionally cancelled on below-average volume, and a
    trade wherever the signal changes. The rolling standard deviation is an input column. */
module Bollinger {
  import opened Floats
  import opened Series
  import opened Frames
  import opened Parameters

  /** The six columns `calculate_bollinger_bands` adds. */
  datatype Bands = Bands(middle: Column, stdDev: Column, upper: Column, lower: Column,
                         bandwidth: Column, percentB: Column)

  /** The band arithmetic over a close series, its rolling standard deviation `sigma` and the
      band width factor `k`. */
  function BandsOf(close: seq<real>, sigma: Column, period: int, k: real): (b: Bands)
    requires period >= 0 && |sigma| == |close|
    ensures |b.middle| == |close| && |b.upper| == |close| && |b.lower| == |close|
    ensures |b.bandwidth| == |close| && |b.percentB| == |close|
    ensures b.middle == RollingMean(close, period) && b.stdDev == sigma
    ensures b.upper == Plus(b.middle, Scale(sigma, k)) && b.lower == Minus(b.middle, Scale(sigma, k))
  {
    var middle := RollingMean(close, period);
    var upper := Plus(middle, Scale(sigma, k));
    var lower := Minus(middle, Scale(sigma, k));
    Bands(middle, sigma, upper, lower, Over(Minus(upper, lower), middle),
          Over(Minus(Finites(close), lower), Minus(upper, lower)))
  }

  /** The caller's columns with the six band columns written over them. */
  function WithBands(columns: map<string, Column>, b: Bands): map<string, Column>
  {
    columns["Middle_Band" := b.middle]["Std_Dev" := b.stdDev]["Upper_Band" := b.upper]
           ["Lower_Band" := b.lower]["Bandwidth" := b.bandwidth]["Percent_B" := b.percentB]
  }

  /** The signal rule of one bar: with the volume filter on, a bar below its rolling mean
      volume holds; otherwise -1 at or above the upper band (this overwrite comes last and
      wins ties), else 1 at or below the lower band, else 0. */
  function BandSignal(close: Float, lower: Float, upper: Float, volume: Float, volumeMean: Float,
                      filter: bool): Float
  {
    if filter && Less(volume, volumeMean) then Finite(0.0)
    else if LessEq(upper, close) then Finite(-1.0)
    else if LessEq(close, lower) then Finite(1.0)
    else Finite(0.0)
  }

  datatype BollingerBandsStrategy = BollingerBandsStrategy(parameters: map<string, Value>,
                                                           period: Value, stdDev: Value,
                                                           useVolume: Value)
  {
    /** `validate_parameters`, check by check. */
    function ValidateParameters(): (valid: bool)
      ensures valid <==>
                && IsInt(period) && AsReal(period) > 0.0
                && IsNumber(stdDev) && AsReal(stdDev) > 0.0
                && useVolume.Bool?
    {
      if !IsInt(period) || AsReal(period) <= 0.0 then false
      else if !IsNumber(stdDev) || AsReal(stdDev) <= 0.0 then false
      else if !useVolume.Bool? then false
      else true
    }

    /** What the band computation needs to run at all: a non-negative integer window (pandas
        raises on a negative, fractional or boolean one; a window of 0 leaves every band
        undefined) and a numeric band width (any other value makes the multiplication raise). */
    predicate Configured()
    {
      period.Int? && period.i >= 0 && IsNumber(stdDev)
    }

    function Width(): real
      requires Configured()
    {
      AsReal(stdDev)
    }

    /** The `Signal` column over a close series, its volume and its rolling deviation. */
    function Signals(close: seq<real>, volume: seq<real>, sigma: Column): (signal: Column)
      requires Configured() && |volume| == |close| && |sigma| == |close|
      ensures |signal| == |close|
    {
      var b := BandsOf(close, sigma, period.i, Width());
      var volumeMean := RollingMean(volume, period.i);
      seq(|close|, i requires 0 <= i < |close| =>
        BandSignal(Finite(close[i]), b.lower[i], b.upper[i], Finite(volume[i]), volumeMean[i],
                   Truthy(useVolume)))
    }

    function Positions(close: seq<real>, volume: seq<real>, sigma: Column): (position: Column)
      requires Configured() && |volume| == |close| && |sigma| == |close|
      ensures |position| == |close|
    {
      Diff(Signals(close, volume, sigma))
    }

    /** `calculate_bollinger_bands`: a copy of the frame with the six band columns added. */
    method CalculateBollingerBands(data: Frame, sigma: Column) returns (out: Frame)
      requires data.Valid() && Configured() && |sigma| == |data.index|
      ensures fresh(out) && out.Valid()
      ensures out.index == data.index && out.close == data.close && out.volume == data.volume
      ensures out.columns == WithBands(data.columns, BandsOf(data.close, sigma, period.i, Width()))
    {
      out := new Frame(data.index, data.close, data.volume, data.columns);
      var middle := RollingMean(out.close, period.i);
      out.columns := out.columns["Middle_Band" := middle];
      out.columns := out.columns["Std_Dev" := sigma];
      var upper := Plus(middle, Scale(sigma, Width()));
      var lower := Minus(middle, Scale(sigma, Width()));
      out.columns := out.columns["Upper_Band" := upper];
      out.columns := out.columns["Lower_Band" := lower];
      out.columns := out.columns["Bandwidth" := Over(Minus(upper, lower), middle)];
      out.columns := out.columns["Percent_B" := Over(Minus(Finites(out.close), lower),
                                                     Minus(upper, lower))];
    }

    /** `generate_signals`: the band frame plus Signal and Position; the caller's frame is left
        as it was. The signal starts at 0, the rows at or below the lower band become 1, then
        those at or above the upper band -1, then, with the volume filter, the rows below
        their rolling mean volume 0 again. */
    method GenerateSignals(data: Frame, sigma: Column) returns (out: Frame)
      requires data.Valid() && Configured() && |sigma| == |data.index|
      ensures fresh(out) && out.Valid() && data.columns == old(data.columns)
      ensures out.index == data.index && out.close == data.close && out.volume == data.volume
      ensures out.columns == WithBands(data.columns, BandsOf(data.close, sigma, period.i, Width()))
                               ["Signal" := Signals(data.close, data.volume, sigma)]
                               ["Position" := Positions(data.close, data.volume, sigma)]
    {
      out := CalculateBollingerBands(data, sigma);
      var n := |out.index|;
      var closes := Finites(out.close);
      var signal := Constant(n, Finite(0.0));
      signal := Where(signal, Mask(closes, Le, out.columns["Lower_Band"]), Finite(1.0));
      signal := Where(signal, Mask(closes, Ge, out.columns["Upper_Band"]), Finite(-1.0));
      if Truthy(useVolume) {
        var volumeMean := RollingMean(out.volume, period.i);
        signal := Where(signal, Mask(Finites(out.volume), Lt, volumeMean), Finite(0.0));
      }
      assert signal == Signals(data.close, data.volume, sigma);
      out.columns := out.columns["Signal" := signal];
      out.columns := out.columns["Position" := Diff(signal)];
    }

    /** `get_bandwidth`: the Bandwidth column of a band frame. */
    method GetBandwidth(data: Frame, sigma: Column) returns (bandwidth: Column)
      requires data.Valid() && Configured() && |sigma| == |data.index|
      ensures bandwidth == BandsOf(data.close, sigma, period.i, Width()).bandwidth
    {
      var bands := CalculateBollingerBands(data, sigma);
      bandwidth := bands.columns["Bandwidth"];
    }

    /** `get_percent_b`: the Percent_B column of a band frame. */
    method GetPercentB(data: Frame, sigma: Column) returns (percentB: Column)
      requires data.Valid() && Configured() && |sigma| == |data.index|
      ensures percentB == BandsOf(data.close, sigma, period.i, Width()).percentB
    {
      var bands := CalculateBollingerBands(data, sigma);
      percentB := bands.columns["Percent_B"];
    }
  }

  /** The constructor: each parameter read from the dictionary, with defaults 20, 2.0 and
      False. */
  function FromParameters(parameters: map<string, Value>): (s: BollingerBandsStrategy)
    ensures s.parameters == parameters
    ensures s.period == (if "period" in parameters then parameters["period"] else Int(20))
    ensures s.stdDev == (if "std_dev" in parameters then parameters["std_dev"] else Float(2.0))
    ensures s.useVolume == (if "use_volume" in parameters then parameters["use_volume"] else Bool(false))
  {
    BollingerBandsStrategy(parameters, Get(parameters, "period", Int(20)),
                           Get(parameters, "std_dev", Float(2.0)),
                           Get(parameters, "use_volume", Bool(false)))
  }

  lemma DefaultsValid()
    ensures FromParameters(map[]).ValidateParameters()
    ensures FromParameters(map[]).Configured()
  {
  }

  /** With a non-negative deviation and a positive width the bands bracket the mean, are
      2 * k * sigma apart, and exist exactly where the mean does: from bar period - 1 on, and
      nowhere for a window of 0. */
  lemma BandOrder(close: seq<real>, sigma: Column, period: int, k: real, i: int)
    requires period >= 0 && |sigma| == |close| && 0 <= i < |close|
    requires sigma[i].Finite? && sigma[i].v >= 0.0 && k > 0.0
    ensures var b := BandsOf(close, sigma, period, k);
            && (b.middle[i].NaN? <==> period == 0 || i < period - 1)
            && (b.middle[i].NaN? || b.middle[i].Finite?)
            && (b.middle[i].NaN? ==> b.upper[i].NaN? && b.lower[i].NaN?)
            && (b.middle[i].Finite? ==>
                  && b.upper[i].Finite? && b.lower[i].Finite?
                  && b.lower[i].v <= b.middle[i].v <= b.upper[i].v
                  && b.upper[i].v - b.lower[i].v == 2.0 * k * sigma[i].v)
  {
    var b := BandsOf(close, sigma, period, k);
    assert sigma[i].v * k >= 0.0;
    if b.middle[i].Finite? {
      SubFinite(b.middle[i].v, sigma[i].v * k);
    }
  }

  /** Where the upper band lies above the lower one, %B is the close's position between them:
      0 on the lower band, 1 on the upper band. */
  lemma PercentBAtBands(close: seq<real>, sigma: Column, period: int, k: real, i: int)
    requires period >= 0 && |sigma| == |close| && 0 <= i < |close|
    ensures var b := BandsOf(close, sigma, period, k);
            b.upper[i].Finite? && b.lower[i].Finite? && b.upper[i].v > b.lower[i].v ==>
              && b.percentB[i] == Finite((close[i] - b.lower[i].v) / (b.upper[i].v - b.lower[i].v))
              && (close[i] == b.lower[i].v ==> b.percentB[i] == Finite(0.0))
              && (close[i] == b.upper[i].v ==> b.percentB[i] == Finite(1.0))
  {
    var b := BandsOf(close, sigma, period, k);
    if b.upper[i].Finite? && b.lower[i].Finite? && b.upper[i].v > b.lower[i].v {
      SubFinite(close[i], b.lower[i].v);
      SubFinite(b.upper[i].v, b.lower[i].v);
      UnitQuotient(b.upper[i].v - b.lower[i].v);
    }
  }

  lemma UnitQuotient(x: real)
    requires x != 0.0
    ensures x / x == 1.0
  {
  }

  /** Every signal is -1, 0 or 1. When the volume filter does not cancel the bar: -1 exactly at
      or above the upper band, 1 exactly at or below the lower band but not at or above the
      upper one, so SELL wins when both hold. */
  lemma SignalRule(s: BollingerBandsStrategy, close: seq<real>, volume: seq<real>, sigma: Column,
                   i: int)
    requires s.Configured() && |volume| == |close| && |sigma| == |close| && 0 <= i < |close|
    ensures IsSignal(s.Signals(close, volume, sigma)[i])
    ensures var b := BandsOf(close, sigma, s.period.i, s.Width());
            var signal := s.Signals(close, volume, sigma)[i];
            var cancelled := Truthy(s.useVolume)
                             && Less(Finite(volume[i]), RollingMean(volume, s.period.i)[i]);
            && (cancelled ==> signal == Finite(0.0))
            && (!cancelled ==>
                  && (signal == Finite(-1.0) <==> LessEq(b.upper[i], Finite(close[i])))
                  && (signal == Finite(1.0) <==>
                        LessEq(Finite(close[i]), b.lower[i]) && !LessEq(b.upper[i], Finite(close[i]))))
  {
  }

  /** Both band conditions hold at once only on collapsed bands: when k * sigma is 0 and the
      close is the mean. */
  lemma BothBandsTouched(close: seq<real>, sigma: Column, period: int, k: real, i: int)
    requires period >= 0 && |sigma| == |close| && 0 <= i < |close|
    requires sigma[i].Finite? && sigma[i].v >= 0.0 && k > 0.0
    ensures var b := BandsOf(close, sigma, period, k);
            LessEq(Finite(close[i]), b.lower[i]) && LessEq(b.upper[i], Finite(close[i])) <==>
              b.middle[i].Finite? && sigma[i].v == 0.0 && close[i] == b.middle[i].v
  {
    RollingMeanDefined(close, period, i);
    BandsTouchedAt(close, RollingMean(close, period), sigma, k, i);
  }

  /** The same over any column of means that is defined or NaN at bar i. */
  lemma BandsTouchedAt(close: seq<real>, middle: Column, sigma: Column, k: real, i: int)
    requires |middle| == |close| && |sigma| == |close| && 0 <= i < |close|
    requires middle[i].NaN? || middle[i].Finite?
    requires sigma[i].Finite? && sigma[i].v >= 0.0 && k > 0.0
    ensures var upper := Plus(middle, Scale(sigma, k));
            var lower := Minus(middle, Scale(sigma, k));
            LessEq(Finite(close[i]), lower[i]) && LessEq(upper[i], Finite(close[i])) <==>
              middle[i].Finite? && sigma[i].v == 0.0 && close[i] == middle[i].v
  {
    var d := Width(sigma, k, i);
    BandTouch(close[i], middle[i], d, Plus(middle, Scale(sigma, k))[i], Minus(middle, Scale(sigma, k))[i]);
  }

  /** At one bar: a close on or outside both bands m + d and m - d, for d >= 0, needs a
      defined mean, d = 0 and the close on the mean. */
  lemma BandTouch(c: real, mid: Float, d: real, upper: Float, lower: Float)
    requires d >= 0.0 && (mid.NaN? || mid.Finite?)
    requires upper == Add(mid, Finite(d)) && lower == Sub(mid, Finite(d))
    ensures LessEq(Finite(c), lower) && LessEq(upper, Finite(c)) <==>
              mid.Finite? && d == 0.0 && c == mid.v
  {
    if mid.Finite? {
      var m := mid.v;
      assert mid == Finite(m);
      FiniteBands(m, d, upper, lower);
      Bracket(c, m, d, upper, lower);
    } else {
      assert lower == NaN;
    }
  }

  lemma FiniteBands(m: real, d: real, upper: Float, lower: Float)
    requires upper == Add(Finite(m), Finite(d)) && lower == Sub(Finite(m), Finite(d))
    ensures upper == Finite(m + d) && lower == Finite(m - d)
  {
  }

  /** A value between finite bands m + d and m - d, for d >= 0, forces d = 0 and the value m. */
  lemma Bracket(c: real, m: real, d: real, upper: Float, lower: Float)
    requires d >= 0.0 && upper == Finite(m + d) && lower == Finite(m - d)
    ensures LessEq(Finite(c), lower) && LessEq(upper, Finite(c)) <==> d == 0.0 && c == m
  {
    assert LessEq(Finite(c), lower) <==> c <= m - d;
    assert LessEq(upper, Finite(c)) <==> m + d <= c;
  }

  /** The half-width k * sigma of the bands at bar i: non-negative, and 0 exactly when the
      deviation is. */
  lemma Width(sigma: Column, k: real, i: int) returns (d: real)
    requires 0 <= i < |sigma| && sigma[i].Finite? && sigma[i].v >= 0.0 && k > 0.0
    ensures Scale(sigma, k)[i] == Finite(d)
    ensures d >= 0.0 && (d == 0.0 <==> sigma[i].v == 0.0)
  {
    d := sigma[i].v * k;
  }

  /** Without the volume filter the volume column plays no part. */
  lemma VolumeIgnoredWithoutFilter(s: BollingerBandsStrategy, close: seq<real>,
                                   volume1: seq<real>, volume2: seq<real>, sigma: Column)
    requires s.Configured() && !Truthy(s.useVolume)
    requires |volume1| == |close| && |volume2| == |close| && |sigma| == |close|
    ensures s.Signals(close, volume1, sigma) == s.Signals(close, volume2, sigma)
  {
  }

  lemma PositionRule(s: BollingerBandsStrategy, close: seq<real>, volume: seq<real>,
                     sigma: Column, i: int)
    requires s.Configured() && |volume| == |close| && |sigma| == |close| && 0 <= i < |close|
    ensures s.Positions(close, volume, sigma)[i].NaN? <==> i == 0
    ensures i > 0 ==> s.Positions(close, volume, sigma)[i].Finite?
                      && -2.0 <= s.Positions(close, volume, sigma)[i].v <= 2.0
    ensures i > 0 ==> (s.Positions(close, volume, sigma)[i] != Finite(0.0) <==>
                         s.Signals(close, volume, sigma)[i] != s.Signals(close, volume, sigma)[i - 1])
  {
    var signal := s.Signals(close, volume, sigma);
    forall j | 0 <= j < |signal|
      ensures IsSignal(signal[j])
    {
      SignalRule(s, close, volume, sigma, j);
    }
    SignalDiff(signal, i);
  }
}
