/** The bar-by-bar simulation of backtester/engine/backtest.py. Each bar with a defined
    `Position` first takes an equity snapshot at its close, then, when the position is
    non-zero, tries a BUY (position > 0) or SELL (position < 0) sized from the current cash.
    A rejected trade is recorded and the run goes on; an uncaught exception ends it. The
    close is a numpy float64 read from the signal frame, so sizing at a close of 0 divides
    without raising. */
module Backtesting {
  import opened Wrappers
  import opened Floats
  import opened Series
  import opened Frames
  import opened Ledger
  import opened MovingAverage

  /** One row of the signal frame, as the loop reads it. */
  datatype Bar = Bar(timestamp: Timestamp, close: real, position: Float)

  /** Why the modelled run stops early. MissingPrice is the KeyError of `update_equity` (a
      holding without a price), which `run` does not catch. NaNCash is a trade accepted at a
      close of 0: its value is NaN, so cash becomes NaN and the real-valued ledger cannot
      follow the run any further (the source itself carries on). */
  datatype Halt = MissingPrice | NaNCash

  /** The state of the simulation between bars: the ledger, the rejected trades reported so
      far, and whether the run has stopped. */
  datatype Progress = Progress(account: Account, failures: seq<TradeError>, halt: Option<Halt>)

  function Rows(index: seq<Timestamp>, close: seq<real>, position: Column): (bars: seq<Bar>)
    requires |close| == |index| && |position| == |index|
    ensures |bars| == |index|
    ensures forall i :: 0 <= i < |bars| ==>
              bars[i].timestamp == index[i] && bars[i].close == close[i] && bars[i].position == position[i]
  {
    seq(|index|, i requires 0 <= i < |index| => Bar(index[i], close[i], position[i]))
  }

  /** A bar asks for a trade when its position is defined and non-zero. */
  predicate Active(bar: Bar)
  {
    !bar.position.NaN? && bar.position != Finite(0.0)
  }

  function TradeTypeOf(position: Float): string
  {
    if Less(Finite(0.0), position) then "BUY" else "SELL"
  }

  /** The share count the sizing rule gives at a close of 0. `position_value / price` with a
      numpy float64 price of 0 does not raise: it gives an infinity of the sign of the cash,
      and NaN when there is no cash. */
  function ZeroCloseSize(cash: real): (size: Float)
    ensures size.PosInf? <==> cash > 0.0
    ensures size.NaN? <==> cash == 0.0
    ensures size.NegInf? <==> cash < 0.0
  {
    Div(Mul(Finite(cash), Finite(0.02)), Finite(0.0))
  }

  /** `execute_trade`'s checks at a price of 0 and a non-finite size: the refusal they raise,
      or None when the trade goes through. The trade value 0 * size is NaN, and a comparison
      with NaN is false, so a BUY always passes its cash check; a SELL is refused when the
      symbol is not held or the holding is below the size. */
  function ZeroCloseCheck(a: Account, symbol: string, tradeType: string, size: Float)
    : (refused: Option<TradeError>)
    ensures tradeType == "BUY" && !size.Finite? ==> refused == None
    ensures tradeType == "SELL" ==>
              (refused == Some(InsufficientPosition) <==>
                 symbol !in a.positions || Less(Finite(a.positions[symbol]), size))
    ensures tradeType == "SELL" ==> refused != Some(InsufficientCash)
  {
    var value := Mul(Finite(0.0), size);
    var commission := Mul(value, Finite(a.commission));
    if tradeType != "BUY" && tradeType != "SELL" then Some(InvalidTradeType)
    else if tradeType == "BUY" then
      if Less(Finite(a.cash), Add(value, commission)) then Some(InsufficientCash) else None
    else if symbol !in a.positions || Less(Finite(a.positions[symbol]), size) then
      Some(InsufficientPosition)
    else None
  }

  /** At a close of 0 a BUY is always accepted (with NaN amounts), and a SELL is refused
      exactly when the symbol is not held or the cash is positive (the size is then +inf). */
  lemma ZeroCloseOutcome(a: Account, symbol: string, tradeType: string)
    requires tradeType == "BUY" || tradeType == "SELL"
    ensures var refused := ZeroCloseCheck(a, symbol, tradeType, ZeroCloseSize(a.cash));
            && (tradeType == "BUY" ==> refused == None)
            && (tradeType == "SELL" ==>
                  (refused == Some(InsufficientPosition) <==> symbol !in a.positions || a.cash > 0.0)
                  && (refused.Some? ==> refused == Some(InsufficientPosition)))
  {
  }

  /** One iteration of the loop. */
  ghost function Step(s: MovingAverageCrossover, symbol: string, p: Progress, bar: Bar)
    : (q: Progress)
    // a bar without a position, or a run already ended, changes nothing
    ensures p.halt.Some? || bar.position.NaN? ==> q == p
    // otherwise a snapshot comes first, at the pre-trade cash and the bar's close
    ensures p.halt.None? && !bar.position.NaN? && p.account.positions.Keys <= {symbol} ==>
              && |q.account.equityHistory| == |p.account.equityHistory| + 1
              && q.account.equityHistory[..|p.account.equityHistory|] == p.account.equityHistory
              && q.account.equityHistory[|p.account.equityHistory|]
                   == EquityRecord(bar.timestamp, p.account.cash,
                                   PositionValue(p.account.positions, map[symbol := bar.close]),
                                   p.account.cash
                                     + PositionValue(p.account.positions, map[symbol := bar.close]))
    // the snapshot fails exactly when some other symbol is held
    ensures p.halt.None? && !bar.position.NaN? ==>
              (q.halt == Some(MissingPrice) <==> !(p.account.positions.Keys <= {symbol}))
    // a zero position trades nothing
    ensures p.halt.None? && bar.position == Finite(0.0) && q.halt.None? ==>
              q.account.trades == p.account.trades && q.account.cash == p.account.cash
              && q.account.positions == p.account.positions && q.failures == p.failures
    // a non-zero position tries exactly one trade, of the side given by the sign, sized from
    // the cash held before the bar; a rejected trade leaves the ledger as the snapshot left it
    ensures p.halt.None? && Active(bar) && q.halt.None? ==>
              && |q.account.trades| + |q.failures| == |p.account.trades| + |p.failures| + 1
              && (|q.failures| == |p.failures| + 1 ==>
                    q.account.trades == p.account.trades && q.account.cash == p.account.cash
                    && q.account.positions == p.account.positions)
              && (|q.account.trades| == |p.account.trades| + 1 ==>
                    && bar.close != 0.0
                    && q.account.trades[|p.account.trades|]
                         == var size := s.PositionSize(bar.close, p.account.cash).value;
                            Trade(bar.timestamp, TradeTypeOf(bar.position), bar.close, size,
                                  bar.close * size, bar.close * size * p.account.commission))
    // at a close of 0 the trade is refused, or accepted with NaN amounts
    ensures p.halt.None? && Active(bar) && q.halt.None? && bar.close == 0.0 ==>
              q.failures == p.failures + [InsufficientPosition]
    ensures p.halt.None? && Active(bar) ==>
              (q.halt == Some(NaNCash) <==>
                 && p.account.positions.Keys <= {symbol} && bar.close == 0.0
                 && (TradeTypeOf(bar.position) == "BUY"
                     || (symbol in p.account.positions && p.account.cash <= 0.0)))
    ensures q.halt == Some(NaNCash) ==> p.halt == Some(NaNCash) || (Active(bar) && bar.close == 0.0)
    ensures q.account.initialCash == p.account.initialCash
    ensures q.account.commission == p.account.commission
    ensures |q.failures| >= |p.failures|
  {
    if p.halt.Some? || bar.position.NaN? then p
    else
      var prices := map[symbol := bar.close];
      match Mark(p.account, bar.timestamp, prices)
      case Err(_) => p.(halt := Some(MissingPrice))
      case Ok(marked) =>
        if bar.position == Finite(0.0) then p.(account := marked)
        else if bar.close == 0.0 then
          ZeroCloseOutcome(marked, symbol, TradeTypeOf(bar.position));
          match ZeroCloseCheck(marked, symbol, TradeTypeOf(bar.position), ZeroCloseSize(marked.cash))
          case Some(e) => Progress(marked, p.failures + [e], None)
          case None => Progress(marked, p.failures, Some(NaNCash))
        else
          var size := s.PositionSize(bar.close, marked.cash).value;
          match Execute(marked, symbol, bar.timestamp, bar.close, size, TradeTypeOf(bar.position))
          case Ok(next) => Progress(next, p.failures, None)
          case Err(e) => Progress(marked, p.failures + [e], None)
  }

  /** The loop over the bars, as a left fold. */
  ghost function Simulate(s: MovingAverageCrossover, symbol: string, p: Progress, bars: seq<Bar>)
    : (q: Progress)
    ensures q.account.initialCash == p.account.initialCash
    ensures q.account.commission == p.account.commission
    decreases |bars|
  {
    if |bars| == 0 then p
    else Step(s, symbol, Simulate(s, symbol, p, bars[..|bars| - 1]), bars[|bars| - 1])
  }

  function CountDefined(bars: seq<Bar>): nat
  {
    if |bars| == 0 then 0
    else CountDefined(bars[..|bars| - 1]) + (if bars[|bars| - 1].position.NaN? then 0 else 1)
  }

  function CountActive(bars: seq<Bar>): nat
  {
    if |bars| == 0 then 0
    else CountActive(bars[..|bars| - 1]) + (if Active(bars[|bars| - 1]) then 1 else 0)
  }

  /** The timestamps of the bars with a defined position, in input order. */
  function DefinedTimestamps(bars: seq<Bar>): seq<Timestamp>
  {
    if |bars| == 0 then []
    else DefinedTimestamps(bars[..|bars| - 1])
         + (if bars[|bars| - 1].position.NaN? then [] else [bars[|bars| - 1].timestamp])
  }

  function Timestamps(history: seq<EquityRecord>): seq<Timestamp>
  {
    seq(|history|, i requires 0 <= i < |history| => history[i].timestamp)
  }

  /** Once an exception has ended the run, later bars change nothing. */
  lemma {:induction false} HaltIsFinal(s: MovingAverageCrossover, symbol: string, p: Progress,
                                       bars: seq<Bar>, k: nat)
    requires k <= |bars| && Simulate(s, symbol, p, bars[..k]).halt.Some?
    ensures Simulate(s, symbol, p, bars) == Simulate(s, symbol, p, bars[..k])
    decreases |bars|
  {
    if k < |bars| {
      var init := bars[..|bars| - 1];
      assert init[..k] == bars[..k];
      HaltIsFinal(s, symbol, p, init, k);
    } else {
      assert bars[..k] == bars;
    }
  }

  /** One bar of a run that goes on: a snapshot iff the position is defined, stamped with the
      bar's time, and exactly one trade or one reported failure iff the bar is active. */
  lemma StepCounts(s: MovingAverageCrossover, symbol: string, p: Progress, bar: Bar)
    requires p.halt.None?
    ensures var q := Step(s, symbol, p, bar);
            q.halt.None? ==>
              && |q.account.equityHistory|
                   == |p.account.equityHistory| + (if bar.position.NaN? then 0 else 1)
              && q.account.equityHistory[..|p.account.equityHistory|] == p.account.equityHistory
              && (!bar.position.NaN? ==>
                    q.account.equityHistory[|p.account.equityHistory|].timestamp == bar.timestamp)
              && |q.account.trades| + |q.failures|
                   == |p.account.trades| + |p.failures| + (if Active(bar) then 1 else 0)
  {
    var q := Step(s, symbol, p, bar);
    if q.halt.None? && bar.position == Finite(0.0) {
      assert !Active(bar);
    }
  }

  /** At a non-zero close, an active bar of a run that goes on is `execute_trade` on the
      marked ledger with the size computed from the cash before the bar: the bar records a
      trade exactly when Execute accepts it, and the ledger is then Execute's result;
      otherwise Execute's error is reported and the ledger is the marked one. */
  lemma StepTrade(s: MovingAverageCrossover, symbol: string, p: Progress, bar: Bar)
    requires p.halt.None? && Active(bar) && bar.close != 0.0
    requires p.account.positions.Keys <= {symbol}
    ensures var marked := Mark(p.account, bar.timestamp, map[symbol := bar.close]).value;
            var x := Execute(marked, symbol, bar.timestamp, bar.close,
                             s.PositionSize(bar.close, p.account.cash).value,
                             TradeTypeOf(bar.position));
            var q := Step(s, symbol, p, bar);
            && q.halt.None?
            && (|q.account.trades| == |p.account.trades| + 1 <==> x.Ok?)
            && (x.Ok? ==> q.account == x.value && q.failures == p.failures)
            && (x.Err? ==> q.account == marked && q.failures == p.failures + [x.error])
  {
    assert map[symbol := bar.close].Keys == {symbol};
    var marked := Mark(p.account, bar.timestamp, map[symbol := bar.close]).value;
    assert marked.cash == p.account.cash && marked.trades == p.account.trades;
  }

  /** A run that no exception ends takes one snapshot per bar with a defined position, in
      input order, and settles every active bar by exactly one trade or one reported failure. */
  lemma {:induction false} SimulateCounts(s: MovingAverageCrossover, symbol: string,
                                          p: Progress, bars: seq<Bar>)
    requires p.halt.None?
    ensures var q := Simulate(s, symbol, p, bars);
            q.halt.None? ==>
              && |q.account.equityHistory| == |p.account.equityHistory| + CountDefined(bars)
              && q.account.equityHistory[..|p.account.equityHistory|] == p.account.equityHistory
              && Timestamps(q.account.equityHistory[|p.account.equityHistory|..])
                   == DefinedTimestamps(bars)
              && |q.account.trades| + |q.failures|
                   == |p.account.trades| + |p.failures| + CountActive(bars)
    decreases |bars|
  {
    if |bars| > 0 {
      var init := bars[..|bars| - 1];
      var last := bars[|bars| - 1];
      var mid := Simulate(s, symbol, p, init);
      var q := Simulate(s, symbol, p, bars);
      SimulateLast(s, symbol, p, bars);
      if q.halt.None? {
        SimulateCounts(s, symbol, p, init);
        var n := |p.account.equityHistory|;
        var before := mid.account.equityHistory;
        var after := q.account.equityHistory;
        if last.position.NaN? {
          assert after == before;
        } else {
          assert after == before + [after[|before|]];
          assert after[n..] == before[n..] + [after[|before|]];
          TimestampsSnoc(before[n..], after[|before|]);
        }
      }
    }
  }

  /** StepCounts for the last bar of a run that goes on. */
  lemma SimulateLast(s: MovingAverageCrossover, symbol: string, p: Progress, bars: seq<Bar>)
    requires |bars| > 0 && p.halt.None?
    ensures var mid := Simulate(s, symbol, p, bars[..|bars| - 1]);
            var q := Simulate(s, symbol, p, bars);
            var last := bars[|bars| - 1];
            q.halt.None? ==>
              && mid.halt.None?
              && |q.account.equityHistory|
                   == |mid.account.equityHistory| + (if last.position.NaN? then 0 else 1)
              && q.account.equityHistory[..|mid.account.equityHistory|] == mid.account.equityHistory
              && (!last.position.NaN? ==>
                    q.account.equityHistory[|mid.account.equityHistory|].timestamp == last.timestamp)
              && |q.account.trades| + |q.failures|
                   == |mid.account.trades| + |mid.failures| + (if Active(last) then 1 else 0)
  {
    var mid := Simulate(s, symbol, p, bars[..|bars| - 1]);
    var last := bars[|bars| - 1];
    if mid.halt.None? {
      StepCounts(s, symbol, mid, last);
    }
  }

  lemma TimestampsSnoc(history: seq<EquityRecord>, e: EquityRecord)
    ensures Timestamps(history + [e]) == Timestamps(history) + [e.timestamp]
  {
  }

  /** The fold over the first i + 1 bars is one more Step after the fold over the first i. */
  lemma SimulateSnoc(s: MovingAverageCrossover, symbol: string, p: Progress, bars: seq<Bar>,
                     i: nat)
    requires i < |bars|
    ensures Simulate(s, symbol, p, bars[..i + 1]) == Step(s, symbol, Simulate(s, symbol, p, bars[..i]), bars[i])
  {
    assert bars[..i + 1][..i] == bars[..i];
  }

  /** The number of recorded trades never exceeds the number of bars asking for one, whether
      or not the run ends early. */
  lemma {:induction false} TradesBounded(s: MovingAverageCrossover, symbol: string, p: Progress,
                                         bars: seq<Bar>)
    ensures |Simulate(s, symbol, p, bars).account.trades| <= |p.account.trades| + CountActive(bars)
    decreases |bars|
  {
    if |bars| > 0 {
      var init := bars[..|bars| - 1];
      var last := bars[|bars| - 1];
      var mid := Simulate(s, symbol, p, init);
      TradesBounded(s, symbol, p, init);
      var q := Step(s, symbol, mid, last);
      if mid.halt.None? && !last.position.NaN? && q.halt.None? && last.position == Finite(0.0) {
        assert q.account.trades == mid.account.trades;
      }
    }
  }

  /** A run whose ledger holds no symbol but the traded one never misses a price, and a run
      over positive closes never divides by zero: no exception ends it. */
  lemma {:induction false} NeverHalts(s: MovingAverageCrossover, symbol: string, p: Progress,
                                      bars: seq<Bar>)
    requires p.halt.None? && p.account.positions.Keys <= {symbol}
    requires forall i :: 0 <= i < |bars| ==> bars[i].close > 0.0
    ensures Simulate(s, symbol, p, bars).halt.None?
    ensures Simulate(s, symbol, p, bars).account.positions.Keys <= {symbol}
    decreases |bars|
  {
    if |bars| > 0 {
      var init := bars[..|bars| - 1];
      NeverHalts(s, symbol, p, init);
      var mid := Simulate(s, symbol, p, init);
      var last := bars[|bars| - 1];
      var q := Step(s, symbol, mid, last);
      if !last.position.NaN? {
        var marked := Mark(mid.account, last.timestamp, map[symbol := last.close]).value;
        if last.position != Finite(0.0) {
          var size := s.PositionSize(last.close, marked.cash).value;
          var r := Execute(marked, symbol, last.timestamp, last.close, size, TradeTypeOf(last.position));
        }
      }
    }
  }

  /** The ledger's solvency invariant over a run: cash stays strictly positive, every holding
      strictly positive and every recorded trade has a positive value, provided the run starts
      with positive cash, the commission rate lies in [0, 1] and every close is positive. */
  predicate Healthy(a: Account)
  {
    && a.cash > 0.0
    && (forall t :: t in a.positions ==> a.positions[t] > 0.0)
    && (forall j :: 0 <= j < |a.trades| ==> a.trades[j].value > 0.0)
  }

  /** Either leg of a trade worth 2% of a positive balance leaves a positive balance. */
  lemma CashStaysPositive(cash: real, cost: real, rate: real)
    requires cash > 0.0 && cost == 0.02 * cash && 0.0 <= rate <= 1.0
    ensures cash - cost * (1.0 + rate) > 0.0
    ensures cash + cost * (1.0 - rate) > 0.0
  {
    assert cost * (1.0 + rate) == cost + cost * rate;
    assert cost * rate <= cost;
    assert cost * (1.0 - rate) == cost - cost * rate;
  }

  /** A trade sized at 2% of a positive cash balance keeps the ledger healthy. */
  lemma TradeHealthy(a: Account, symbol: string, timestamp: Timestamp, price: real, size: real,
                     tradeType: string)
    requires Healthy(a) && 0.0 <= a.commission <= 1.0 && price > 0.0
    requires size * price == 0.02 * a.cash
    ensures var r := Execute(a, symbol, timestamp, price, size, tradeType);
            r.Ok? ==> Healthy(r.value)
  {
    var r := Execute(a, symbol, timestamp, price, size, tradeType);
    if r.Ok? {
      var cost := price * size;
      assert cost == 0.02 * a.cash && cost > 0.0;
      assert size > 0.0 by {
        PositiveFactor(price, size);
      }
      assert r.value.cash > 0.0 by {
        CashStaysPositive(a.cash, cost, a.commission);
      }
      assert forall t :: t in r.value.positions ==> r.value.positions[t] > 0.0 by {
        ExecutePreservesSolvency(a, symbol, timestamp, price, size, tradeType);
      }
      assert forall j :: 0 <= j < |r.value.trades| ==> r.value.trades[j].value > 0.0 by {
        assert r.value.trades == a.trades + [r.value.trades[|a.trades|]];
        assert r.value.trades[|a.trades|].value == cost;
      }
    }
  }

  lemma PositiveFactor(price: real, size: real)
    requires price > 0.0 && price * size > 0.0
    ensures size > 0.0
  {
  }

  lemma StepHealthy(s: MovingAverageCrossover, symbol: string, p: Progress, bar: Bar)
    requires Healthy(p.account) && 0.0 <= p.account.commission <= 1.0 && bar.close > 0.0
    ensures Healthy(Step(s, symbol, p, bar).account)
  {
    if p.halt.None? && !bar.position.NaN? {
      var m := Mark(p.account, bar.timestamp, map[symbol := bar.close]);
      if m.Ok? && bar.position != Finite(0.0) {
        var marked := m.value;
        assert Healthy(marked);
        var size := s.PositionSize(bar.close, marked.cash).value;
        TradeHealthy(marked, symbol, bar.timestamp, bar.close, size, TradeTypeOf(bar.position));
      }
    }
  }

  lemma {:induction false} RunHealthy(s: MovingAverageCrossover, symbol: string, p: Progress,
                                      bars: seq<Bar>)
    requires Healthy(p.account) && 0.0 <= p.account.commission <= 1.0
    requires forall i :: 0 <= i < |bars| ==> bars[i].close > 0.0
    ensures Healthy(Simulate(s, symbol, p, bars).account)
    decreases |bars|
  {
    if |bars| > 0 {
      var init := bars[..|bars| - 1];
      RunHealthy(s, symbol, p, init);
      assert bars[|bars| - 1].close > 0.0;
      StepHealthy(s, symbol, Simulate(s, symbol, p, init), bars[|bars| - 1]);
    }
  }

  /** When only the first bar lacks a position, every other bar yields a snapshot. */
  lemma {:induction false} OnlyFirstUndefined(bars: seq<Bar>)
    requires |bars| > 0
    requires forall i :: 0 <= i < |bars| ==> (bars[i].position.NaN? <==> i == 0)
    ensures CountDefined(bars) == |bars| - 1
    decreases |bars|
  {
    if |bars| > 1 {
      var init := bars[..|bars| - 1];
      assert forall i :: 0 <= i < |init| ==> init[i] == bars[i];
      OnlyFirstUndefined(init);
    }
  }

  /** Under the moving-average strategy the loop skips only bar 0. */
  lemma CrossoverSkipsOnlyFirstBar(s: MovingAverageCrossover, index: seq<Timestamp>,
                                   close: seq<real>)
    requires s.Windowed() && |close| == |index| && |index| > 0
    ensures CountDefined(Rows(index, close, s.Positions(close))) == |index| - 1
  {
    var bars := Rows(index, close, s.Positions(close));
    forall i | 0 <= i < |bars|
      ensures bars[i].position.NaN? <==> i == 0
    {
      PositionRule(s, close, i);
    }
    OnlyFirstUndefined(bars);
  }

  /** The dictionary `run` returns. */
  datatype Results = Results(equityCurve: EquityCurve, tradeHistory: TradeTable,
                             finalEquity: real, totalTrades: nat)

  /** Result assembly: the final equity is the last snapshot's total, or the initial cash when
      there is none; the trade count is the length of the log. */
  function Assemble(a: Account): (r: Results)
    ensures r.equityCurve.WellFormed() && EquityRows(r.equityCurve) == a.equityHistory
    ensures r.tradeHistory.WellFormed() && TradeRows(r.tradeHistory) == a.trades
    ensures r.finalEquity == if |a.equityHistory| == 0 then a.initialCash
                             else a.equityHistory[|a.equityHistory| - 1].totalEquity
    ensures r.totalTrades == |a.trades|
  {
    var equityCurve := EquityCurveOf(a.equityHistory);
    var tradeHistory := TradeTableOf(a.trades);
    EquityCurveRoundTrip(a.equityHistory);
    TradeTableRoundTrip(a.trades);
    Results(equityCurve, tradeHistory,
            if equityCurve.Length() == 0 then a.initialCash
            else equityCurve.totalEquity[equityCurve.Length() - 1],
            if tradeHistory.Length() == 0 then 0 else tradeHistory.Length())
  }

  /** The ValueError of `get_results` before any run. */
  datatype NotRun = NotRun

  class Backtest {
    const data: Frame
    const strategy: MovingAverageCrossover
    const portfolio: Portfolio
    var results: Option<Results>
    /** The rejected trades `run` reports, in order. */
    var failures: seq<TradeError>

    /** The single symbol every bar is priced and traded under. */
    static const Symbol: string := "symbol"

    constructor (data: Frame, strategy: MovingAverageCrossover, initialCash: real := 100000.0,
                 commission: real := 0.001)
      ensures this.data == data && this.strategy == strategy
      ensures fresh(portfolio)
      ensures portfolio.Model() == Account(initialCash, initialCash, commission, map[], [], [])
      ensures results == None && failures == []
    {
      this.data := data;
      this.strategy := strategy;
      this.portfolio := new Portfolio(initialCash, commission);
      this.results := None;
      this.failures := [];
    }

    /** One pass of `run`'s loop body: skip, snapshot, size, trade, report. */
    method ProcessBar(bar: Bar, ghost before: Progress, ghost reported: seq<TradeError>)
      returns (halt: Option<Halt>)
      requires before.halt.None? && portfolio.Model() == before.account
      requires failures == reported + before.failures
      modifies this, portfolio
      ensures var q := Step(strategy, Symbol, before, bar);
              && halt == q.halt
              && portfolio.Model() == q.account
              && failures == reported + q.failures
              && results == old(results)
    {
      if bar.position.NaN? {
        return None;
      }
      var marked := portfolio.UpdateEquity(bar.timestamp, map[Symbol := bar.close]);
      if marked.Fail? {
        return Some(MissingPrice);
      }
      if bar.position != Finite(0.0) {
        var tradeType := if Less(Finite(0.0), bar.position) then "BUY" else "SELL";
        if bar.close == 0.0 {
          var refused := ZeroCloseCheck(portfolio.Model(), Symbol, tradeType,
                                        ZeroCloseSize(portfolio.cash));
          if refused.None? {
            return Some(NaNCash);
          }
          failures := failures + [refused.value];
        } else {
          var quantity := strategy.PositionSize(bar.close, portfolio.cash);
          var traded := portfolio.ExecuteTrade(Symbol, bar.timestamp, bar.close, quantity.value,
                                               tradeType);
          if traded.Fail? {
            failures := failures + [traded.error];
          }
        }
      }
      halt := None;
    }

    /** `run`: annotates the data with the strategy's signals, then folds Step over its rows.
        When the run is not stopped the results are assembled and stored. A KeyError stops it
        with nothing stored and the ledger as the bars before it left it; so, in this model,
        does a trade that makes the cash NaN. */
    method Run() returns (r: Result<Results, Halt>)
      requires data.Valid() && strategy.Windowed()
      modifies this, data, portfolio
      ensures data.Valid() && data.columns == strategy.Annotate(old(data.columns), data.close)
      ensures var bars := Rows(data.index, data.close, strategy.Positions(data.close));
              var q := Simulate(strategy, Symbol, Progress(old(portfolio.Model()), [], None), bars);
              && portfolio.Model() == q.account
              && failures == old(failures) + q.failures
              && (q.halt.None? ==> r == Ok(Assemble(q.account)) && results == Some(r.value))
              && (q.halt.Some? ==> r == Err(q.halt.value) && results == old(results))
    {
      var signals := strategy.GenerateSignals(data);
      ghost var columns := data.columns;
      ghost var bars := Rows(data.index, data.close, strategy.Positions(data.close));
      ghost var start := Progress(portfolio.Model(), [], None);
      ghost var reported := failures;
      for i := 0 to |data.index|
        invariant data.columns == columns && data.Valid()
        invariant results == old(results)
        invariant Simulate(strategy, Symbol, start, bars[..i]).halt.None?
        invariant portfolio.Model() == Simulate(strategy, Symbol, start, bars[..i]).account
        invariant failures == reported + Simulate(strategy, Symbol, start, bars[..i]).failures
      {
        SimulateSnoc(strategy, Symbol, start, bars, i);
        var bar := Bar(data.index[i], data.close[i], signals.columns["Position"][i]);
        assert bars[i] == bar;
        var halt := ProcessBar(bar, Simulate(strategy, Symbol, start, bars[..i]), reported);
        if halt.Some? {
          HaltIsFinal(strategy, Symbol, start, bars, i + 1);
          return Err(halt.value);
        }
      }
      assert bars[..|data.index|] == bars;
      results := Some(Assemble(portfolio.Model()));
      r := Ok(results.value);
    }

    /** `get_results`: an error before a successful run, afterwards the stored results. */
    function GetResults(): (r: Result<Results, NotRun>)
      reads this
      ensures r.Ok? <==> results.Some?
      ensures r.Ok? ==> r.value == results.value
    {
      if results.None? then Err(NotRun) else Ok(results.value)
    }
  }
}
