/** What the metrics say about a run of the backtest: the ledger invariant of the simulation
    carried over to the win rate of the trade table it produces. */
module RunMetrics {
  import opened Ledger
  import opened MovingAverage
  import opened Backtesting
  import opened Metrics

  /** Every trade of a run over positive closes, from positive cash at a commission rate in
      [0, 1], is worth a positive amount, so the run's win rate is 1 whenever it traded. */
  lemma RunWinRate(s: MovingAverageCrossover, symbol: string, p: Progress, bars: seq<Bar>)
    requires Healthy(p.account) && 0.0 <= p.account.commission <= 1.0
    requires forall i :: 0 <= i < |bars| ==> bars[i].close > 0.0
    ensures var a := Simulate(s, symbol, p, bars).account;
            |a.trades| > 0 ==> WinRate(TradeTableOf(a.trades)) == 1.0
  {
    RunHealthy(s, symbol, p, bars);
    var a := Simulate(s, symbol, p, bars).account;
    TradeTableRoundTrip(a.trades);
  }
}
