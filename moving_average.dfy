/** The moving-average crossover strategy of backtester/strategies/moving_average.py: a buy
    signal while the short rolling mean of the close is above the long one, a sell signal while
    it is below, and a trade (`Position`) wherever the signal changes. */
module MovingAverage {
  import opened Wrappers
  import opened Floats
  import opened Series
  import opened Frames

  /** The crossover classification of one bar: 1 when short > long, -1 when short < long, and
      0 when they are equal or either mean is undefined. */
  function Crossover(short: Float, long: Float): Float
  {
    if Less(long, short) then Finite(1.0)
    else if Less(short, long) then Finite(-1.0)
    else Finite(0.0)
  }

  datatype MovingAverageCrossover = MovingAverageCrossover(shortWindow: int := 20,
                                                           longWindow: int := 50)
  {
    /** pandas refuses a negative rolling window (a window of 0 gives undefined means, so
        every signal stays 0). */
    predicate Windowed()
    {
      shortWindow >= 0 && longWindow >= 0
    }

    /** The `Signal` column the strategy derives from a close series. */
    function Signals(close: seq<real>): (signal: Column)
      requires Windowed()
      ensures |signal| == |close|
    {
      var short := RollingMean(close, shortWindow);
      var long := RollingMean(close, longWindow);
      seq(|close|, i requires 0 <= i < |close| => Crossover(short[i], long[i]))
    }

    /** The `Position` column: the first difference of the signal. */
    function Positions(close: seq<real>): (position: Column)
      requires Windowed()
      ensures |position| == |close|
    {
      Diff(Signals(close))
    }

    /** The caller's columns once `generate_signals` has written its four columns. */
    function Annotate(columns: map<string, Column>, close: seq<real>): map<string, Column>
      requires Windowed()
    {
      columns["SMA_short" := RollingMean(close, shortWindow)]
             ["SMA_long" := RollingMean(close, longWindow)]
             ["Signal" := Signals(close)]
             ["Position" := Positions(close)]
    }

    /** `generate_signals`: writes SMA_short, SMA_long, Signal and Position into the caller's
        frame and returns that same frame. The signal starts at 0 everywhere, then the rows
        with short > long are overwritten with 1, then those with short < long with -1. */
    method GenerateSignals(data: Frame) returns (out: Frame)
      requires data.Valid() && Windowed()
      modifies data
      ensures out == data && data.Valid()
      ensures data.columns == Annotate(old(data.columns), data.close)
    {
      var short := RollingMean(data.close, shortWindow);
      var long := RollingMean(data.close, longWindow);
      data.columns := data.columns["SMA_short" := short];
      data.columns := data.columns["SMA_long" := long];
      var signal := Constant(|data.index|, Finite(0.0));
      signal := Where(signal, Mask(short, Gt, long), Finite(1.0));
      signal := Where(signal, Mask(short, Lt, long), Finite(-1.0));
      assert signal == Signals(data.close) by {
        forall i | 0 <= i < |signal|
          ensures signal[i] == Signals(data.close)[i]
        {
          LessAsymmetric(short[i], long[i]);
        }
      }
      data.columns := data.columns["Signal" := signal];
      data.columns := data.columns["Position" := Diff(signal)];
      out := data;
    }

    /** `calculate_position_size` on Python floats: the number of shares worth `riskPerTrade`
        of the portfolio value at `price`, and a ZeroDivisionError at a price of 0. (A numpy
        float64 price divides by 0 without raising; the backtest loop passes one, and
        `Backtesting.ZeroCloseSize` models that case.) */
    function PositionSize(price: real, portfolioValue: real, riskPerTrade: real := 0.02)
      : (size: Result<real, ZeroDivisionError>)
      ensures size.Ok? <==> price != 0.0
      ensures size.Ok? ==> size.value * price == riskPerTrade * portfolioValue
      ensures size.Ok? && price > 0.0 && portfolioValue > 0.0 && riskPerTrade > 0.0 ==>
                size.value > 0.0
    {
      if price == 0.0 then Err(ZeroDivisionError)
      else Ok(portfolioValue * riskPerTrade / price)
    }
  }

  lemma LessAsymmetric(a: Float, b: Float)
    ensures !(Less(a, b) && Less(b, a))
  {
  }

  /** Every signal is -1, 0 or 1: 1 exactly when both means exist and short > long, -1 exactly
      when both exist and short < long, and 0 otherwise. */
  lemma SignalRule(s: MovingAverageCrossover, close: seq<real>, i: int)
    requires s.Windowed() && 0 <= i < |close|
    ensures IsSignal(s.Signals(close)[i])
    ensures var short, long := RollingMean(close, s.shortWindow)[i],
                               RollingMean(close, s.longWindow)[i];
            && (s.Signals(close)[i] == Finite(1.0) <==>
                  short.Finite? && long.Finite? && short.v > long.v)
            && (s.Signals(close)[i] == Finite(-1.0) <==>
                  short.Finite? && long.Finite? && short.v < long.v)
            && (s.Signals(close)[i] == Finite(0.0) <==>
                  short.NaN? || long.NaN? || short == long)
  {
    var short, long := RollingMean(close, s.shortWindow)[i], RollingMean(close, s.longWindow)[i];
    assert short.Finite? || short.NaN?;
    assert long.Finite? || long.NaN?;
  }

  /** The position column is undefined only at bar 0; afterwards it is a step in [-2, 2] that
      is non-zero exactly where the signal changes. */
  lemma PositionRule(s: MovingAverageCrossover, close: seq<real>, i: int)
    requires s.Windowed() && 0 <= i < |close|
    ensures s.Positions(close)[i].NaN? <==> i == 0
    ensures i > 0 ==> s.Positions(close)[i].Finite?
                      && -2.0 <= s.Positions(close)[i].v <= 2.0
    ensures i > 0 ==> (s.Positions(close)[i] != Finite(0.0) <==>
                         s.Signals(close)[i] != s.Signals(close)[i - 1])
  {
    var signal := s.Signals(close);
    forall j | 0 <= j < |signal|
      ensures IsSignal(signal[j])
    {
      SignalRule(s, close, j);
    }
    SignalDiff(signal, i);
  }
}
