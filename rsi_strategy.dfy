/** The RSI strategy of backtester/strategies/rsi_strategy.py: the relative strength index of
    the close over `period` bars, a buy signal below `oversold`, a sell signal above
    `overbought`, and a trade wherever the signal changes. */
module Rsi {
  import opened Floats
  import opened Series
  import opened Frames
  import opened Parameters

  datatype RsiStrategy = RsiStrategy(parameters: map<string, Value>, period: Value,
                                     overbought: Value, oversold: Value)
  {
    /** `validate_parameters`, check by check. */
    function ValidateParameters(): (valid: bool)
      ensures valid <==>
                && IsInt(period) && AsReal(period) > 0.0
                && IsNumber(overbought) && IsNumber(oversold)
                && AsReal(overbought) > AsReal(oversold)
                && AsReal(overbought) > 50.0 && AsReal(oversold) < 50.0
    {
      if !IsInt(period) || AsReal(period) <= 0.0 then false
      else if !IsNumber(overbought) || !IsNumber(oversold) then false
      else if AsReal(overbought) <= AsReal(oversold) then false
      else if AsReal(overbought) <= 50.0 || AsReal(oversold) >= 50.0 then false
      else true
    }

    /** What signal generation needs to run at all: a non-negative integer window (pandas
        raises on a negative, fractional or boolean one; a window of 0 leaves the index
        undefined) and thresholds that are numbers or None (a string makes the comparison
        raise). */
    predicate Configured()
    {
      && period.Int? && period.i >= 0
      && (IsNumber(overbought) || overbought.NoneValue?)
      && (IsNumber(oversold) || oversold.NoneValue?)
    }

    /** The `Signal` column. */
    function Signals(close: seq<real>): (signal: Column)
      requires Configured()
      ensures |signal| == |close|
    {
      var rsi := CalculateRsi(close, period.i);
      seq(|close|, i requires 0 <= i < |close| =>
        Classify(rsi[i], Threshold(oversold), Threshold(overbought)))
    }

    function Positions(close: seq<real>): (position: Column)
      requires Configured()
      ensures |position| == |close|
    {
      Diff(Signals(close))
    }

    /** `generate_signals`: writes RSI, Signal and Position into the caller's frame and returns
        it. The signal starts at 0, the rows below `oversold` are overwritten with 1, then the
        rows above `overbought` with -1. */
    method GenerateSignals(data: Frame) returns (out: Frame)
      requires data.Valid() && Configured()
      modifies data
      ensures out == data && data.Valid()
      ensures data.columns == old(data.columns)["RSI" := CalculateRsi(data.close, period.i)]
                                               ["Signal" := Signals(data.close)]
                                               ["Position" := Positions(data.close)]
    {
      var rsi := CalculateRsi(data.close, period.i);
      data.columns := data.columns["RSI" := rsi];
      var n := |data.index|;
      var signal := Constant(n, Finite(0.0));
      signal := Where(signal, Mask(rsi, Lt, Constant(n, Threshold(oversold))), Finite(1.0));
      signal := Where(signal, Mask(rsi, Gt, Constant(n, Threshold(overbought))), Finite(-1.0));
      assert signal == Signals(data.close);
      data.columns := data.columns["Signal" := signal];
      data.columns := data.columns["Position" := Diff(signal)];
      out := data;
    }
  }

  /** A threshold as the element-wise comparison sees it: a number, or None, against which
      every comparison is false, like NaN. */
  function Threshold(v: Value): (t: Float)
    requires IsNumber(v) || v.NoneValue?
    ensures t.NaN? <==> v.NoneValue?
    ensures IsNumber(v) ==> t == Finite(AsReal(v))
  {
    if v.NoneValue? then NaN else Finite(AsReal(v))
  }

  /** The constructor: each parameter read from the dictionary, with defaults 14, 70 and 30. */
  function FromParameters(parameters: map<string, Value>): (s: RsiStrategy)
    ensures s.parameters == parameters
    ensures s.period == (if "period" in parameters then parameters["period"] else Int(14))
    ensures s.overbought == (if "overbought" in parameters then parameters["overbought"] else Int(70))
    ensures s.oversold == (if "oversold" in parameters then parameters["oversold"] else Int(30))
  {
    RsiStrategy(parameters, Get(parameters, "period", Int(14)),
                Get(parameters, "overbought", Int(70)), Get(parameters, "oversold", Int(30)))
  }

  /** The defaults pass validation. */
  lemma DefaultsValid()
    ensures FromParameters(map[]).ValidateParameters()
    ensures FromParameters(map[]).Configured()
  {
  }

  /** The ordering check never decides: once overbought > 50 > oversold holds it holds too. */
  lemma OrderCheckRedundant(s: RsiStrategy)
    ensures s.ValidateParameters() <==>
              && IsInt(s.period) && AsReal(s.period) > 0.0
              && IsNumber(s.overbought) && IsNumber(s.oversold)
              && AsReal(s.overbought) > 50.0 && AsReal(s.oversold) < 50.0
  {
  }

  /** Per-bar gains: the rise of the close since the previous bar, else 0. The first bar has no
      change and `where` turns its NaN into 0, so it counts as a flat bar. */
  function Gains(close: seq<real>): (g: seq<real>)
    ensures |g| == |close|
  {
    seq(|close|, i requires 0 <= i < |close| =>
      if i > 0 && close[i] - close[i - 1] > 0.0 then close[i] - close[i - 1] else 0.0)
  }

  /** Per-bar losses: the fall of the close since the previous bar, as a positive amount. */
  function Losses(close: seq<real>): (l: seq<real>)
    ensures |l| == |close|
  {
    seq(|close|, i requires 0 <= i < |close| =>
      if i > 0 && close[i] - close[i - 1] < 0.0 then close[i - 1] - close[i] else 0.0)
  }

  /** Gains and losses are non-negative, never both positive, and split each change:
      gain - loss is the change of the close. */
  lemma GainsAndLossesSplitChanges(close: seq<real>, i: int)
    requires 0 <= i < |close|
    ensures Gains(close)[i] >= 0.0 && Losses(close)[i] >= 0.0
    ensures Gains(close)[i] == 0.0 || Losses(close)[i] == 0.0
    ensures i > 0 ==> Gains(close)[i] - Losses(close)[i] == close[i] - close[i - 1]
    ensures i == 0 ==> Gains(close)[i] == 0.0 && Losses(close)[i] == 0.0
  {
  }

  /** `100 - 100 / (1 + gain / loss)` in float arithmetic. */
  function RsiOf(gain: Float, loss: Float): Float
  {
    Sub(Finite(100.0), Div(Finite(100.0), Add(Finite(1.0), Div(gain, loss))))
  }

  /** `calculate_rsi`: the index from the rolling means of gains and losses. */
  function CalculateRsi(close: seq<real>, period: int): (rsi: Column)
    requires period >= 0
    ensures |rsi| == |close|
    ensures forall i :: 0 <= i < |close| && (period == 0 || i < period - 1) ==> rsi[i].NaN?
  {
    var gain := RollingMean(Gains(close), period);
    var loss := RollingMean(Losses(close), period);
    seq(|close|, i requires 0 <= i < |close| => RsiOf(gain[i], loss[i]))
  }

  /** The formula on non-negative averages: with losses it is 100 * gain / (gain + loss), in
      [0, 100), and 0 without gains; with gains but no losses the division by zero gives 100;
      with neither it is NaN. */
  lemma RsiFormula(gain: real, loss: real)
    requires gain >= 0.0 && loss >= 0.0
    ensures RsiOf(Finite(gain), Finite(loss)).NaN? <==> gain == 0.0 && loss == 0.0
    ensures loss > 0.0 ==> && RsiOf(Finite(gain), Finite(loss)) == Finite(100.0 * gain / (gain + loss))
                           && 0.0 <= 100.0 * gain / (gain + loss) < 100.0
    ensures loss > 0.0 && gain == 0.0 ==> RsiOf(Finite(gain), Finite(loss)) == Finite(0.0)
    ensures loss == 0.0 && gain > 0.0 ==> RsiOf(Finite(gain), Finite(loss)) == Finite(100.0)
  {
    if loss > 0.0 {
      RsiAlgebra(gain, loss);
    }
  }

  lemma RsiAlgebra(g: real, l: real)
    requires g >= 0.0 && l > 0.0
    ensures 100.0 - 100.0 / (1.0 + g / l) == 100.0 * g / (g + l)
    ensures 0.0 <= 100.0 * g / (g + l) < 100.0
  {
    var t := g + l;
    var rs := g / l;
    assert rs * l == g;
    assert (1.0 + rs) * l == t;
    var q := 100.0 / (1.0 + rs);
    assert q * (1.0 + rs) == 100.0;
    assert q * t == 100.0 * l by {
      assert q * t == q * ((1.0 + rs) * l);
      assert q * ((1.0 + rs) * l) == (q * (1.0 + rs)) * l;
    }
    var x := 100.0 * g / t;
    assert x * t == 100.0 * g;
    Cancel(q, x, g, l);
    assert x < 100.0 by {
      assert x * t < 100.0 * t;
    }
  }

  lemma Cancel(q: real, x: real, g: real, l: real)
    requires g + l > 0.0 && q * (g + l) == 100.0 * l && x * (g + l) == 100.0 * g
    ensures 100.0 - q == x
  {
    var d := 100.0 - q - x;
    assert d * (g + l) == 100.0 * (g + l) - q * (g + l) - x * (g + l);
    assert d * (g + l) == 0.0;
  }

  /** The index is undefined for the first period - 1 bars (everywhere for a window of 0);
      afterwards it is undefined only over a window without any change, and otherwise lies in
      [0, 100]. */
  lemma RsiRange(close: seq<real>, period: int, i: int)
    requires period >= 0 && 0 <= i < |close|
    ensures period == 0 || i < period - 1 ==> CalculateRsi(close, period)[i].NaN?
    ensures CalculateRsi(close, period)[i].NaN? || CalculateRsi(close, period)[i].Finite?
    ensures CalculateRsi(close, period)[i].Finite? ==>
              0.0 <= CalculateRsi(close, period)[i].v <= 100.0
  {
    var gain := RollingMean(Gains(close), period);
    var loss := RollingMean(Losses(close), period);
    if period > 0 && i >= period - 1 {
      forall j | 0 <= j < |close|
        ensures Gains(close)[j] >= 0.0 && Losses(close)[j] >= 0.0
      {
        GainsAndLossesSplitChanges(close, j);
      }
      RollingMeanAtLeast(Gains(close), period, 0.0, i);
      RollingMeanAtLeast(Losses(close), period, 0.0, i);
      RsiFormula(gain[i].v, loss[i].v);
    }
  }

  /** The threshold rule: -1 above `overbought`, else 1 below `oversold`, else 0 (an undefined
      index compares false both ways). The SELL overwrite comes last, so it wins. */
  function Classify(rsi: Float, oversold: Float, overbought: Float): Float
  {
    if Less(overbought, rsi) then Finite(-1.0)
    else if Less(rsi, oversold) then Finite(1.0)
    else Finite(0.0)
  }

  /** Under valid parameters an index cannot be both oversold and overbought, so each signal
      is set by exactly the threshold it crosses. */
  lemma ThresholdsExclusive(s: RsiStrategy, close: seq<real>, i: int)
    requires s.ValidateParameters() && s.Configured() && 0 <= i < |close|
    ensures var rsi := CalculateRsi(close, s.period.i)[i];
            var signal := s.Signals(close)[i];
            && IsSignal(signal)
            && !(Less(rsi, Finite(AsReal(s.oversold))) && Less(Finite(AsReal(s.overbought)), rsi))
            && (signal == Finite(1.0) <==> Less(rsi, Finite(AsReal(s.oversold))))
            && (signal == Finite(-1.0) <==> Less(Finite(AsReal(s.overbought)), rsi))
            && (signal == Finite(0.0) <==>
                  !Less(rsi, Finite(AsReal(s.oversold))) && !Less(Finite(AsReal(s.overbought)), rsi))
  {
  }

  /** A None threshold never fires: its comparison is false on every bar. */
  lemma NoneThresholdNeverFires(s: RsiStrategy, close: seq<real>, i: int)
    requires s.Configured() && 0 <= i < |close|
    ensures s.oversold.NoneValue? ==> s.Signals(close)[i] != Finite(1.0)
    ensures s.overbought.NoneValue? ==> s.Signals(close)[i] != Finite(-1.0)
    ensures s.oversold.NoneValue? && s.overbought.NoneValue? ==> s.Signals(close)[i] == Finite(0.0)
  {
  }

  /** The position column is undefined only at bar 0, afterwards a step in [-2, 2] that is
      non-zero exactly where the signal changes. */
  lemma PositionRule(s: RsiStrategy, close: seq<real>, i: int)
    requires s.Configured() && 0 <= i < |close|
    ensures s.Positions(close)[i].NaN? <==> i == 0
    ensures i > 0 ==> s.Positions(close)[i].Finite? && -2.0 <= s.Positions(close)[i].v <= 2.0
    ensures i > 0 ==> (s.Positions(close)[i] != Finite(0.0) <==>
                         s.Signals(close)[i] != s.Signals(close)[i - 1])
  {
    SignalDiff(s.Signals(close), i);
  }
}
