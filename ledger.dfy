/** The portfolio ledger of backtester/engine/portfolio.py: cash, a symbol-to-quantity map of
    open positions, the append-only trade log and the append-only equity history. Amounts are
    reals, so every sum and product is exact. */
module Ledger {
  import opened Wrappers
  import opened Frames

  /** One executed transaction; `tradeType` is the string "BUY" or "SELL" the caller passed. */
  datatype Trade = Trade(timestamp: Timestamp, tradeType: string, price: real, quantity: real,
                         value: real, commission: real)

  /** One equity snapshot, the dictionary appended by `update_equity`. */
  datatype EquityRecord = EquityRecord(timestamp: Timestamp, cash: real, positionValue: real,
                                       totalEquity: real)

  /** The three `ValueError`s `execute_trade` raises. */
  datatype TradeError = InvalidTradeType | InsufficientCash | InsufficientPosition

  /** The `KeyError` of `update_equity`: a held symbol has no current price. */
  datatype PricingGap = PricingGap

  /** The whole state of a portfolio, as a value. */
  datatype Account = Account(initialCash: real, cash: real, commission: real,
                             positions: map<string, real>, trades: seq<Trade>,
                             equityHistory: seq<EquityRecord>)

  /** `positions.get(symbol, 0)`. */
  function Held(positions: map<string, real>, symbol: string): real
  {
    if symbol in positions then positions[symbol] else 0.0
  }

  /** `execute_trade` as a state transition. The commission is charged on the notional value
      on both sides: a BUY debits value + commission, a SELL credits value - commission. */
  function Execute(a: Account, symbol: string, timestamp: Timestamp, price: real,
                   quantity: real, tradeType: string): (r: Result<Account, TradeError>)
    // which requests are refused, and with which error
    ensures tradeType != "BUY" && tradeType != "SELL" ==> r == Err(InvalidTradeType)
    ensures tradeType == "BUY" ==>
              (r.Ok? <==> price * quantity * (1.0 + a.commission) <= a.cash)
    ensures tradeType == "BUY" && r.Err? ==> r.error == InsufficientCash
    ensures tradeType == "SELL" ==>
              (r.Ok? <==> symbol in a.positions && quantity <= a.positions[symbol])
    ensures tradeType == "SELL" && r.Err? ==> r.error == InsufficientPosition
    // an accepted trade appends exactly one record and leaves the rest of the log alone
    ensures r.Ok? ==> r.value.trades == a.trades + [Trade(timestamp, tradeType, price, quantity,
                                                          price * quantity,
                                                          price * quantity * a.commission)]
    ensures r.Ok? ==> r.value.equityHistory == a.equityHistory
                      && r.value.initialCash == a.initialCash
                      && r.value.commission == a.commission
    // no other symbol's holding changes
    ensures r.Ok? ==> forall s :: s != symbol ==>
              (s in r.value.positions <==> s in a.positions)
              && Held(r.value.positions, s) == Held(a.positions, s)
    // cash and the traded symbol's holding
    ensures r.Ok? && tradeType == "BUY" ==>
              && r.value.cash == a.cash - price * quantity * (1.0 + a.commission)
              && symbol in r.value.positions
              && r.value.positions[symbol] == Held(a.positions, symbol) + quantity
    ensures r.Ok? && tradeType == "SELL" ==>
              && r.value.cash == a.cash + price * quantity * (1.0 - a.commission)
              && Held(r.value.positions, symbol) == a.positions[symbol] - quantity
              && (symbol in r.value.positions <==> a.positions[symbol] != quantity)
  {
    if tradeType != "BUY" && tradeType != "SELL" then Err(InvalidTradeType)
    else
      var commissionAmount := price * quantity * a.commission;
      var tradeValue := price * quantity;
      var trade := Trade(timestamp, tradeType, price, quantity, tradeValue, commissionAmount);
      if tradeType == "BUY" then
        if tradeValue + commissionAmount > a.cash then Err(InsufficientCash)
        else
          Ok(a.(cash := a.cash - (tradeValue + commissionAmount),
                positions := a.positions[symbol := Held(a.positions, symbol) + quantity],
                trades := a.trades + [trade]))
      else
        if symbol !in a.positions || a.positions[symbol] < quantity then Err(InsufficientPosition)
        else
          var left := a.positions[symbol] - quantity;
          Ok(a.(cash := a.cash + (tradeValue - commissionAmount),
                positions := if left == 0.0 then a.positions - {symbol}
                             else a.positions[symbol := left],
                trades := a.trades + [trade]))
  }

  /** Cash is non-negative and every stored holding is strictly positive. */
  predicate Solvent(a: Account)
  {
    a.cash >= 0.0 && forall s :: s in a.positions ==> a.positions[s] > 0.0
  }

  /** A trade with positive price and quantity keeps the ledger solvent, provided the
      commission rate is at most 1 (a SELL credits value * (1 - rate)). */
  lemma ExecutePreservesSolvency(a: Account, symbol: string, timestamp: Timestamp, price: real,
                                 quantity: real, tradeType: string)
    requires Solvent(a) && 0.0 <= a.commission <= 1.0
    requires price > 0.0 && quantity > 0.0
    ensures var r := Execute(a, symbol, timestamp, price, quantity, tradeType);
            r.Ok? ==> Solvent(r.value)
  {
    var r := Execute(a, symbol, timestamp, price, quantity, tradeType);
    if r.Ok? {
      var value := price * quantity;
      assert value > 0.0;
      if tradeType == "BUY" {
        assert Held(a.positions, symbol) >= 0.0;
      } else {
        assert value * (1.0 - a.commission) >= 0.0;
        assert price * quantity * (1.0 - a.commission) >= 0.0;
      }
      forall s | s in r.value.positions
        ensures r.value.positions[s] > 0.0
      {
        if s != symbol {
          assert Held(r.value.positions, s) == Held(a.positions, s);
        }
      }
    }
  }

  /** Why the rate bound is needed: a SELL at a commission rate of 2 drives cash negative. */
  lemma SellAboveUnitCommission()
    ensures var a := Account(0.0, 0.0, 2.0, map["symbol" := 1.0], [], []);
            var r := Execute(a, "symbol", 0, 100.0, 1.0, "SELL");
            Solvent(a) && r.Ok? && r.value.cash == -100.0
  {
  }

  /** Buying q at one price and selling q at another restores the positions exactly and
      costs commission on both legs; at an unchanged price the round trip costs
      2 * rate * price * q. */
  lemma RoundTrip(a: Account, symbol: string, t1: Timestamp, t2: Timestamp, buyPrice: real,
                  sellPrice: real, quantity: real)
    requires buyPrice * quantity * (1.0 + a.commission) <= a.cash
    requires symbol in a.positions ==> a.positions[symbol] > 0.0
    ensures var b := Execute(a, symbol, t1, buyPrice, quantity, "BUY");
            b.Ok? &&
            var s := Execute(b.value, symbol, t2, sellPrice, quantity, "SELL");
            && s.Ok?
            && s.value.positions == a.positions
            && s.value.cash == a.cash - buyPrice * quantity * (1.0 + a.commission)
                                      + sellPrice * quantity * (1.0 - a.commission)
            && (sellPrice == buyPrice ==>
                  s.value.cash == a.cash - 2.0 * a.commission * buyPrice * quantity)
            && |s.value.trades| == |a.trades| + 2
  {
    var b := Execute(a, symbol, t1, buyPrice, quantity, "BUY");
    var bought := b.value;
    assert bought.positions[symbol] == Held(a.positions, symbol) + quantity;
    var s := Execute(bought, symbol, t2, sellPrice, quantity, "SELL");
    assert s.Ok?;
    var left := bought.positions[symbol] - quantity;
    assert left == Held(a.positions, symbol);
    if symbol in a.positions {
      assert s.value.positions == bought.positions[symbol := left];
      assert s.value.positions == a.positions;
    } else {
      assert s.value.positions == bought.positions - {symbol};
      assert s.value.positions == a.positions;
    }
  }

  /** The worked example: 100000 in cash at 0.1% commission; BUY 10 at 100 leaves 98999 and a
      holding of 10; SELL 10 at 110 then leaves 100097.9, no positions and two trades. */
  lemma RoundTripExample()
    ensures var a := Account(100000.0, 100000.0, 0.001, map[], [], []);
            var b := Execute(a, "symbol", 1, 100.0, 10.0, "BUY");
            && b.Ok?
            && b.value.cash == 98999.0
            && b.value.positions == map["symbol" := 10.0]
            && b.value.trades[0].value == 1000.0 && b.value.trades[0].commission == 1.0
            && var s := Execute(b.value, "symbol", 2, 110.0, 10.0, "SELL");
            && s.Ok?
            && s.value.cash == 100097.9
            && s.value.positions == map[]
            && |s.value.trades| == 2
  {
    var a := Account(100000.0, 100000.0, 0.001, map[], [], []);
    var b := Execute(a, "symbol", 1, 100.0, 10.0, "BUY");
    assert b.value.positions == map["symbol" := 10.0];
    var s := Execute(b.value, "symbol", 2, 110.0, 10.0, "SELL");
    assert s.value.positions == map["symbol" := 10.0] - {"symbol"};
  }

  /** The market value of the holdings: the sum of quantity * price over all held symbols.
      The order of summation is irrelevant (SumOverRemove). */
  ghost function PositionValue(positions: map<string, real>, prices: map<string, real>): real
    requires positions.Keys <= prices.Keys
  {
    SumOver(positions.Keys, positions, prices)
  }

  /** The sum of positions[s] * prices[s] over the symbols in `symbols`, taken in an
      unspecified order. */
  ghost function SumOver(symbols: set<string>, positions: map<string, real>,
                         prices: map<string, real>): real
    requires symbols <= positions.Keys && symbols <= prices.Keys
  {
    if symbols == {} then 0.0
    else
      var s :| s in symbols;
      positions[s] * prices[s] + SumOver(symbols - {s}, positions, prices)
  }

  /** Any symbol can be summed first. */
  lemma {:induction false} SumOverRemove(symbols: set<string>, positions: map<string, real>,
                                         prices: map<string, real>, s: string)
    requires symbols <= positions.Keys && symbols <= prices.Keys && s in symbols
    ensures SumOver(symbols, positions, prices)
              == positions[s] * prices[s] + SumOver(symbols - {s}, positions, prices)
    decreases symbols
  {
    var t :| t in symbols && SumOver(symbols, positions, prices)
                               == positions[t] * prices[t] + SumOver(symbols - {t}, positions, prices);
    if t != s {
      SumOverRemove(symbols - {t}, positions, prices, s);
      assert symbols - {t} - {s} == symbols - {s} - {t};
      SumOverRemove(symbols - {s}, positions, prices, t);
    }
  }

  /** Positive holdings at non-negative prices are worth a non-negative amount. */
  lemma {:induction false} SumOverNonNegative(symbols: set<string>, positions: map<string, real>,
                                              prices: map<string, real>)
    requires symbols <= positions.Keys && symbols <= prices.Keys
    requires forall s :: s in symbols ==> positions[s] >= 0.0 && prices[s] >= 0.0
    ensures SumOver(symbols, positions, prices) >= 0.0
    decreases symbols
  {
    if symbols != {} {
      var t :| t in symbols && SumOver(symbols, positions, prices)
                                 == positions[t] * prices[t] + SumOver(symbols - {t}, positions, prices);
      SumOverNonNegative(symbols - {t}, positions, prices);
      assert positions[t] * prices[t] >= 0.0;
    }
  }

  lemma PositionValueNonNegative(positions: map<string, real>, prices: map<string, real>)
    requires positions.Keys <= prices.Keys
    requires forall s :: s in positions ==> positions[s] >= 0.0 && prices[s] >= 0.0
    ensures PositionValue(positions, prices) >= 0.0
  {
    SumOverNonNegative(positions.Keys, positions, prices);
  }

  /** With at most one held symbol, the holdings are worth its quantity times its price. */
  lemma PositionValueSingle(positions: map<string, real>, prices: map<string, real>, s: string)
    requires positions.Keys <= {s} && s in prices
    ensures PositionValue(positions, prices) == Held(positions, s) * prices[s]
  {
    if s in positions {
      SumOverRemove(positions.Keys, positions, prices, s);
      assert positions.Keys - {s} == {};
    } else {
      assert positions.Keys == {};
    }
  }

  /** `update_equity` as a state transition: it appends one snapshot (cash, holdings marked to
      the given prices, and their total) and changes nothing else; a held symbol without a
      price is an error that changes nothing. */
  ghost function Mark(a: Account, timestamp: Timestamp, prices: map<string, real>)
    : (r: Result<Account, PricingGap>)
    ensures r.Ok? <==> a.positions.Keys <= prices.Keys
    ensures r.Ok? ==>
              && r.value.(equityHistory := a.equityHistory) == a
              && |r.value.equityHistory| == |a.equityHistory| + 1
              && r.value.equityHistory[..|a.equityHistory|] == a.equityHistory
    ensures r.Ok? ==>
              var e := r.value.equityHistory[|a.equityHistory|];
              && e.timestamp == timestamp && e.cash == a.cash
              && e.positionValue == PositionValue(a.positions, prices)
              && e.totalEquity == a.cash + e.positionValue
  {
    if !(a.positions.Keys <= prices.Keys) then Err(PricingGap)
    else
      var positionValue := PositionValue(a.positions, prices);
      Ok(a.(equityHistory := a.equityHistory
              + [EquityRecord(timestamp, a.cash, positionValue, a.cash + positionValue)]))
  }

  /** `get_equity_curve`: the snapshots as a table indexed by timestamp, one column per field.
      No snapshots give the empty table. */
  datatype EquityCurve = EquityCurve(index: seq<Timestamp>, cash: seq<real>,
                                     positionValue: seq<real>, totalEquity: seq<real>)
  {
    predicate WellFormed()
    {
      |cash| == |index| && |positionValue| == |index| && |totalEquity| == |index|
    }

    function Length(): nat { |index| }
  }

  function EquityCurveOf(history: seq<EquityRecord>): EquityCurve
  {
    EquityCurve(seq(|history|, i requires 0 <= i < |history| => history[i].timestamp),
                seq(|history|, i requires 0 <= i < |history| => history[i].cash),
                seq(|history|, i requires 0 <= i < |history| => history[i].positionValue),
                seq(|history|, i requires 0 <= i < |history| => history[i].totalEquity))
  }

  /** The rows of an equity table, read back as records. */
  function EquityRows(curve: EquityCurve): seq<EquityRecord>
    requires curve.WellFormed()
  {
    seq(curve.Length(), i requires 0 <= i < curve.Length() =>
      EquityRecord(curve.index[i], curve.cash[i], curve.positionValue[i], curve.totalEquity[i]))
  }

  /** The table holds exactly the snapshots, in order: reading its rows back gives the
      history, and it is empty exactly when the history is. */
  lemma EquityCurveRoundTrip(history: seq<EquityRecord>)
    ensures EquityCurveOf(history).WellFormed()
    ensures EquityCurveOf(history).Length() == |history|
    ensures EquityRows(EquityCurveOf(history)) == history
  {
  }

  /** `get_trade_history`: the trade log as a table with one column per field. */
  datatype TradeTable = TradeTable(timestamp: seq<Timestamp>, tradeType: seq<string>,
                                   price: seq<real>, quantity: seq<real>, value: seq<real>,
                                   commission: seq<real>)
  {
    predicate WellFormed()
    {
      && |tradeType| == |timestamp| && |price| == |timestamp| && |quantity| == |timestamp|
      && |value| == |timestamp| && |commission| == |timestamp|
    }

    function Length(): nat { |timestamp| }
  }

  function TradeTableOf(trades: seq<Trade>): TradeTable
  {
    TradeTable(seq(|trades|, i requires 0 <= i < |trades| => trades[i].timestamp),
               seq(|trades|, i requires 0 <= i < |trades| => trades[i].tradeType),
               seq(|trades|, i requires 0 <= i < |trades| => trades[i].price),
               seq(|trades|, i requires 0 <= i < |trades| => trades[i].quantity),
               seq(|trades|, i requires 0 <= i < |trades| => trades[i].value),
               seq(|trades|, i requires 0 <= i < |trades| => trades[i].commission))
  }

  function TradeRows(table: TradeTable): seq<Trade>
    requires table.WellFormed()
  {
    seq(table.Length(), i requires 0 <= i < table.Length() =>
      Trade(table.timestamp[i], table.tradeType[i], table.price[i], table.quantity[i],
            table.value[i], table.commission[i]))
  }

  lemma TradeTableRoundTrip(trades: seq<Trade>)
    ensures TradeTableOf(trades).WellFormed()
    ensures TradeTableOf(trades).Length() == |trades|
    ensures TradeRows(TradeTableOf(trades)) == trades
  {
  }

  class Portfolio {
    var initialCash: real
    var cash: real
    var commission: real
    var positions: map<string, real>
    var trades: seq<Trade>
    var equityHistory: seq<EquityRecord>

    function Model(): Account
      reads this
    {
      Account(initialCash, cash, commission, positions, trades, equityHistory)
    }

    /** A fresh portfolio: all cash, no positions, no trades, no snapshots. */
    constructor (initialCash: real := 100000.0, commission: real := 0.001)
      ensures Model() == Account(initialCash, initialCash, commission, map[], [], [])
    {
      this.initialCash := initialCash;
      this.cash := initialCash;
      this.commission := commission;
      this.positions := map[];
      this.trades := [];
      this.equityHistory := [];
    }

    /** `execute_trade`: either applies Execute or reports its error, changing nothing. */
    method ExecuteTrade(symbol: string, timestamp: Timestamp, price: real, quantity: real,
                        tradeType: string) returns (r: Outcome<TradeError>)
      modifies this
      ensures match Execute(old(Model()), symbol, timestamp, price, quantity, tradeType)
              case Ok(next) => r == Pass && Model() == next
              case Err(e) => r == Fail(e) && Model() == old(Model())
    {
      ghost var expected := Execute(Model(), symbol, timestamp, price, quantity, tradeType);
      if tradeType != "BUY" && tradeType != "SELL" {
        return Fail(InvalidTradeType);
      }
      var commissionAmount := price * quantity * commission;
      var tradeValue := price * quantity;
      if tradeType == "BUY" {
        if tradeValue + commissionAmount > cash {
          return Fail(InsufficientCash);
        }
        cash := cash - (tradeValue + commissionAmount);
        positions := positions[symbol := Held(positions, symbol) + quantity];
      } else {
        if symbol !in positions || positions[symbol] < quantity {
          return Fail(InsufficientPosition);
        }
        cash := cash + (tradeValue - commissionAmount);
        var left := positions[symbol] - quantity;
        if left == 0.0 {
          positions := positions - {symbol};
        } else {
          positions := positions[symbol := left];
        }
      }
      trades := trades + [Trade(timestamp, tradeType, price, quantity, tradeValue, commissionAmount)];
      assert expected.value.cash == cash && expected.value.positions == positions;
      assert expected.value.trades == trades;
      r := Pass;
    }

    /** `update_equity`: sums quantity * price over the held symbols, then appends the
        snapshot; a held symbol missing from `currentPrices` fails before anything changes. */
    method UpdateEquity(timestamp: Timestamp, currentPrices: map<string, real>)
      returns (r: Outcome<PricingGap>)
      modifies this
      ensures match Mark(old(Model()), timestamp, currentPrices)
              case Ok(next) => r == Pass && Model() == next
              case Err(e) => r == Fail(e) && Model() == old(Model())
    {
      var positionValue := 0.0;
      var pending := positions.Keys;
      while pending != {}
        invariant unchanged(this)
        invariant pending <= positions.Keys
        invariant positions.Keys - pending <= currentPrices.Keys
        invariant positionValue == SumOver(positions.Keys - pending, positions, currentPrices)
        decreases pending
      {
        var symbol :| symbol in pending;
        if symbol !in currentPrices {
          return Fail(PricingGap);
        }
        ghost var done := positions.Keys - pending;
        SumOverRemove(done + {symbol}, positions, currentPrices, symbol);
        assert done + {symbol} - {symbol} == done;
        assert positions.Keys - (pending - {symbol}) == done + {symbol};
        positionValue := positionValue + positions[symbol] * currentPrices[symbol];
        pending := pending - {symbol};
      }
      assert positions.Keys - pending == positions.Keys;
      var totalEquity := cash + positionValue;
      equityHistory := equityHistory + [EquityRecord(timestamp, cash, positionValue, totalEquity)];
      r := Pass;
    }

    /** `get_equity_curve`: one row per snapshot, in order; no snapshots, no rows. */
    function GetEquityCurve(): (curve: EquityCurve)
      reads this
      ensures curve.WellFormed() && EquityRows(curve) == equityHistory
      ensures curve.Length() == 0 <==> equityHistory == []
    {
      EquityCurveRoundTrip(equityHistory);
      EquityCurveOf(equityHistory)
    }

    /** `get_trade_history`: one row per trade, in order; no trades, no rows. */
    function GetTradeHistory(): (table: TradeTable)
      reads this
      ensures table.WellFormed() && TradeRows(table) == trades
      ensures table.Length() == 0 <==> trades == []
    {
      TradeTableRoundTrip(trades);
      TradeTableOf(trades)
    }
  }
}
