/**
  The figures BacktestingService computes from simulated trades: the equity of
  the cash and the open trades, closing a trade, the win/loss statistics and the
  Sharpe ratio of the equity curve.

  Equity counts an open trade at its unrealised profit only, while buying takes
  the trade's cost out of the cash; so a purchase lowers equity by its cost. The
  model keeps this, as it is what the service computes.
 */
module BacktestMetrics {
  import opened Wrappers
  import opened Decimal
  import opened Series
  import opened Domain

  // ---------------------------------------------------------------- equity

  /** (price − entry) × quantity. */
  function UnrealisedOf(t: BacktestTrade, price: real): real {
    (price - t.entryPrice) * t.quantity
  }

  function Unrealised(trades: seq<BacktestTrade>, price: real): (r: seq<real>)
    ensures |r| == |trades|
    ensures forall i :: 0 <= i < |trades| ==> r[i] == UnrealisedOf(trades[i], price)
  {
    seq(|trades|, i requires 0 <= i < |trades| => UnrealisedOf(trades[i], price))
  }

  /** The cash plus the unrealised profit of every open trade at `price`. */
  function Equity(cash: real, trades: seq<BacktestTrade>, price: real): real {
    cash + Sum(Unrealised(trades, price))
  }

  /** calculateEquity. */
  method CalculateEquity(cash: real, trades: seq<BacktestTrade>, price: real) returns (equity: real)
    ensures equity == Equity(cash, trades, price)
  {
    equity := cash;
    var i := 0;
    while i < |trades|
      invariant 0 <= i <= |trades|
      invariant equity == cash + Sum(Unrealised(trades[..i], price))
    {
      assert Unrealised(trades[..i + 1], price) == Unrealised(trades[..i], price) + [UnrealisedOf(trades[i], price)];
      SumAppend(Unrealised(trades[..i], price), UnrealisedOf(trades[i], price));
      equity := equity + UnrealisedOf(trades[i], price);
      i := i + 1;
    }
    assert trades[..i] == trades;
  }

  /**
    Buying a trade at the current price and paying its cost from the cash
    lowers the equity by exactly that cost, since the new trade has no profit yet.
   */
  lemma BuyingLowersEquity(cash: real, trades: seq<BacktestTrade>, t: BacktestTrade, price: real)
    requires t.entryPrice == price
    ensures Equity(cash - t.entryPrice * t.quantity, trades + [t], price)
      == Equity(cash, trades, price) - t.entryPrice * t.quantity
  {
    assert UnrealisedOf(t, price) == 0.0;
    assert Unrealised(trades + [t], price) == Unrealised(trades, price) + [0.0];
    SumAppend(Unrealised(trades, price), 0.0);
  }

  /** With every open trade at its entry price, the equity is the cash. */
  lemma EquityAtEntryIsCash(cash: real, trades: seq<BacktestTrade>, price: real)
    requires forall i :: 0 <= i < |trades| ==> trades[i].entryPrice == price
    ensures Equity(cash, trades, price) == cash
  {
    SumConstant(Unrealised(trades, price), 0.0);
  }

  // ---------------------------------------------------------------- closing trades

  const EndOfBacktest := "End of backtest"

  lemma QuantityCancels(entry: real, exit: real, quantity: real)
    requires entry * quantity != 0.0
    ensures ((exit - entry) * quantity) / (entry * quantity) == (exit - entry) / entry
  {
    assert entry != 0.0 && quantity != 0.0;
    calc {
      ((exit - entry) * quantity) / (entry * quantity);
      ((exit - entry) / entry) * ((entry * quantity) / (entry * quantity));
      (exit - entry) / entry;
    }
  }

  /**
    closeTrade: the exit recorded, the profit (exit − entry) × quantity and the
    return on the trade's cost in percent, half-up to 4 places before scaling. A
    trade of zero cost cannot be divided by. The quantity cancels out of the
    percentage, which is the price move over the entry price.
   */
  function CloseTrade(t: BacktestTrade, exitPrice: real, exitTime: int, reason: string): (r: Result<BacktestTrade, Fault>)
    ensures r.Failure? <==> t.entryPrice * t.quantity == 0.0
    ensures r.Success? ==>
      && r.value.entryTime == t.entryTime && r.value.entryPrice == t.entryPrice
      && r.value.quantity == t.quantity && r.value.strategy == t.strategy
      && r.value.exitPrice == Some(exitPrice) && r.value.exitTime == Some(exitTime)
      && r.value.exitReason == Some(reason)
      && r.value.pnl == Some((exitPrice - t.entryPrice) * t.quantity)
      && r.value.pnlPercent == Some(RoundHalfUp((exitPrice - t.entryPrice) / t.entryPrice, 4) * 100.0)
  {
    var cost := t.entryPrice * t.quantity;
    if cost == 0.0 then Failure(DivisionByZero)
    else
      var pnl := (exitPrice - t.entryPrice) * t.quantity;
      var percent := DivHalfUp(pnl, cost, 4) * 100.0;
      QuantityCancels(t.entryPrice, exitPrice, t.quantity);
      assert pnl / cost == (exitPrice - t.entryPrice) / t.entryPrice;
      assert percent == RoundHalfUp((exitPrice - t.entryPrice) / t.entryPrice, 4) * 100.0;
      Success(t.(exitPrice := Some(exitPrice), exitTime := Some(exitTime), exitReason := Some(reason),
        pnl := Some(pnl), pnlPercent := Some(percent)))
  }

  /** Every open trade closed at the last bar, in order; any trade of zero cost throws. */
  function CloseAll(trades: seq<BacktestTrade>, last: Bar): (r: Result<seq<BacktestTrade>, Fault>)
    ensures r.Failure? <==> exists i :: 0 <= i < |trades| && trades[i].entryPrice * trades[i].quantity == 0.0
    ensures r.Success? ==> |r.value| == |trades|
    ensures r.Success? ==> forall i :: 0 <= i < |trades| ==>
      Success(r.value[i]) == CloseTrade(trades[i], last.close, last.timestamp, EndOfBacktest)
  {
    if exists i :: 0 <= i < |trades| && trades[i].entryPrice * trades[i].quantity == 0.0 then Failure(DivisionByZero)
    else Success(seq(|trades|, i requires 0 <= i < |trades| =>
      CloseTrade(trades[i], last.close, last.timestamp, EndOfBacktest).value))
  }

  /** The loop closing the remaining trades. */
  method CloseRemaining(trades: seq<BacktestTrade>, last: Bar) returns (r: Result<seq<BacktestTrade>, Fault>)
    ensures r == CloseAll(trades, last)
  {
    var closed: seq<BacktestTrade> := [];
    var i := 0;
    while i < |trades|
      invariant 0 <= i <= |trades| && |closed| == i
      invariant forall j :: 0 <= j < i ==> trades[j].entryPrice * trades[j].quantity != 0.0
      invariant forall j :: 0 <= j < i ==>
        Success(closed[j]) == CloseTrade(trades[j], last.close, last.timestamp, EndOfBacktest)
    {
      var c := CloseTrade(trades[i], last.close, last.timestamp, EndOfBacktest);
      if c.Failure? {
        assert trades[i].entryPrice * trades[i].quantity == 0.0;
        return Failure(c.error);
      }
      closed := closed + [c.value];
      i := i + 1;
    }
    assert closed == CloseAll(trades, last).value;
    r := Success(closed);
  }

  // ---------------------------------------------------------------- trade statistics

  /** The counters of the statistics loop. */
  datatype Tally = Tally(wins: nat, losses: nat, totalWin: real, totalLoss: real)

  /** A trade wins when its profit is strictly positive; a zero profit counts as a loss. */
  predicate Wins(t: BacktestTrade)
    requires t.pnl.Some?
  {
    t.pnl.value > 0.0
  }

  function Count(tally: Tally, t: BacktestTrade): Tally
    requires t.pnl.Some?
  {
    if Wins(t) then tally.(wins := tally.wins + 1, totalWin := tally.totalWin + t.pnl.value)
    else tally.(losses := tally.losses + 1, totalLoss := tally.totalLoss + Abs(t.pnl.value))
  }

  predicate AllClosed(trades: seq<BacktestTrade>) {
    forall i :: 0 <= i < |trades| ==> trades[i].pnl.Some?
  }

  function TallyOf(trades: seq<BacktestTrade>): Tally
    requires AllClosed(trades)
  {
    if |trades| == 0 then Tally(0, 0, 0.0, 0.0)
    else Count(TallyOf(trades[..|trades| - 1]), trades[|trades| - 1])
  }

  function Pnls(trades: seq<BacktestTrade>): (r: seq<real>)
    requires AllClosed(trades)
    ensures |r| == |trades|
    ensures forall i :: 0 <= i < |trades| ==> r[i] == trades[i].pnl.value
  {
    seq(|trades|, i requires 0 <= i < |trades| => trades[i].pnl.value)
  }

  /**
    Every trade is either a win or a loss; the win and loss totals are
    non-negative, zero when there are no such trades, and their difference is
    the total profit.
   */
  lemma {:induction false} TallyFacts(trades: seq<BacktestTrade>)
    requires AllClosed(trades)
    ensures var t := TallyOf(trades);
      && t.wins + t.losses == |trades|
      && t.totalWin >= 0.0 && t.totalLoss >= 0.0
      && (t.wins == 0 ==> t.totalWin == 0.0)
      && (t.losses == 0 ==> t.totalLoss == 0.0)
      && (t.wins > 0 ==> t.totalWin > 0.0)
      && t.totalWin - t.totalLoss == Sum(Pnls(trades))
  {
    if |trades| > 0 {
      var prefix := trades[..|trades| - 1];
      assert AllClosed(prefix) by {
        assert forall i :: 0 <= i < |prefix| ==> prefix[i] == trades[i];
      }
      TallyFacts(prefix);
      PnlsOfLast(trades);
      SumAppend(Pnls(prefix), trades[|trades| - 1].pnl.value);
    }
  }

  lemma PnlsOfLast(trades: seq<BacktestTrade>)
    requires |trades| > 0 && AllClosed(trades)
    ensures AllClosed(trades[..|trades| - 1])
    ensures Pnls(trades) == Pnls(trades[..|trades| - 1]) + [trades[|trades| - 1].pnl.value]
  {
    var prefix := trades[..|trades| - 1];
    assert forall i :: 0 <= i < |prefix| ==> prefix[i] == trades[i];
  }

  /** The statistics stored on the result; the optional ones stay null when undefined. */
  datatype TradeStats = TradeStats(
    totalTrades: nat,
    winningTrades: nat,
    losingTrades: nat,
    averageWin: Option<real>,
    averageLoss: Option<real>,
    winRate: Option<real>,
    profitFactor: Option<real>)

  /** calculateTradeStatistics from the tally. */
  function StatsOf(n: nat, t: Tally): TradeStats {
    TradeStats(n, t.wins, t.losses,
      if t.wins > 0 then Some(DivHalfUp(t.totalWin, t.wins as real, 4)) else None,
      if t.losses > 0 then Some(DivHalfUp(t.totalLoss, t.losses as real, 4)) else None,
      if t.wins > 0 && n > 0 then Some(DivHalfUp(t.wins as real, n as real, 4) * 100.0) else None,
      if t.totalLoss > 0.0 then Some(DivHalfUp(t.totalWin, t.totalLoss, 2)) else None)
  }

  function Statistics(trades: seq<BacktestTrade>): TradeStats
    requires AllClosed(trades)
  {
    StatsOf(|trades|, TallyOf(trades))
  }

  /** calculateTradeStatistics: the counting loop, then the averages and ratios. */
  method CalculateTradeStatistics(trades: seq<BacktestTrade>) returns (stats: TradeStats)
    requires AllClosed(trades)
    ensures stats == Statistics(trades)
  {
    var tally := Tally(0, 0, 0.0, 0.0);
    var i := 0;
    while i < |trades|
      invariant 0 <= i <= |trades|
      invariant tally == TallyOf(trades[..i])
    {
      assert trades[..i + 1][..i] == trades[..i];
      tally := Count(tally, trades[i]);
      i := i + 1;
    }
    assert trades[..i] == trades;
    stats := StatsOf(|trades|, tally);
  }

  /**
    Wins and losses add up to the number of trades; the averages exist exactly
    when there are wins or losses and are non-negative; the win rate is a
    percentage between 0 and 100; the profit factor exists exactly when some
    loss is not zero, and is non-negative.
   */
  lemma StatisticsFacts(trades: seq<BacktestTrade>)
    requires AllClosed(trades)
    ensures var s := Statistics(trades);
      && s.totalTrades == |trades| && s.winningTrades + s.losingTrades == s.totalTrades
      && (s.averageWin.Some? <==> s.winningTrades > 0)
      && (s.averageLoss.Some? <==> s.losingTrades > 0)
      && (s.averageWin.Some? ==> s.averageWin.value >= 0.0)
      && (s.averageLoss.Some? ==> s.averageLoss.value >= 0.0)
      && (s.winRate.Some? <==> s.winningTrades > 0)
      && (s.winRate.Some? ==> 0.0 <= s.winRate.value <= 100.0)
      && (s.profitFactor.Some? ==> s.profitFactor.value >= 0.0)
  {
    TallyFacts(trades);
    var t := TallyOf(trades);
    StatsOfFacts(|trades|, t.wins, t.losses, t.totalWin, t.totalLoss);
  }

  /** The facts of StatsOf, on the counts and totals of a tally whose counts add up. */
  lemma StatsOfFacts(n: nat, wins: nat, losses: nat, totalWin: real, totalLoss: real)
    requires wins + losses == n && totalWin >= 0.0 && totalLoss >= 0.0
    ensures var s := StatsOf(n, Tally(wins, losses, totalWin, totalLoss));
      && s.totalTrades == n && s.winningTrades + s.losingTrades == s.totalTrades
      && (s.averageWin.Some? <==> s.winningTrades > 0)
      && (s.averageLoss.Some? <==> s.losingTrades > 0)
      && (s.averageWin.Some? ==> s.averageWin.value >= 0.0)
      && (s.averageLoss.Some? ==> s.averageLoss.value >= 0.0)
      && (s.winRate.Some? <==> s.winningTrades > 0)
      && (s.winRate.Some? ==> 0.0 <= s.winRate.value <= 100.0)
      && (s.profitFactor.Some? ==> s.profitFactor.value >= 0.0)
  {
    if wins > 0 {
      DivHalfUpNonNegative(totalWin, wins as real, 4);
      WinRateIsPercentage(wins, n);
    }
    if losses > 0 {
      DivHalfUpNonNegative(totalLoss, losses as real, 4);
    }
    if totalLoss > 0.0 {
      DivHalfUpNonNegative(totalWin, totalLoss, 2);
    }
  }

  /** Wins over trades, half-up to 4 places, as a percentage between 0 and 100. */
  lemma WinRateIsPercentage(wins: nat, n: nat)
    requires 0 < wins <= n
    ensures 0.0 <= DivHalfUp(wins as real, n as real, 4) * 100.0 <= 100.0
  {
    var rate := (wins as real) / (n as real);
    DivLe(wins as real, n as real, n as real);
    DivLe(0.0, wins as real, n as real);
    HasScaleInteger(0, 4);
    HasScaleInteger(1, 4);
    RoundHalfUpBetween(rate, 0.0, 1.0, 4);
  }

  // ---------------------------------------------------------------- Sharpe ratio

  /** No point of the curve before the last is zero, so every return can be divided out. */
  predicate Divisible(curve: seq<real>) {
    forall i :: 0 <= i < |curve| - 1 ==> curve[i] != 0.0
  }

  /** Period returns (e[i] − e[i−1]) / e[i−1], half-up to 8 places. */
  function Returns(curve: seq<real>): (r: seq<real>)
    requires Divisible(curve)
    ensures |curve| > 0 ==> |r| == |curve| - 1
    ensures |curve| > 0 ==> forall i :: 0 <= i < |r| ==> r[i] == DivHalfUp(curve[i + 1] - curve[i], curve[i], 8)
  {
    if |curve| == 0 then []
    else seq(|curve| - 1, i requires 0 <= i < |curve| - 1 => DivHalfUp(curve[i + 1] - curve[i], curve[i], 8))
  }

  /** The mean of the returns, half-up to 8 places. */
  function AverageReturn(rs: seq<real>): real
    requires |rs| > 0
  {
    DivHalfUp(Sum(rs), |rs| as real, 8)
  }

  function Square(x: real): real {
    x * x
  }

  lemma SquareNonNegative(x: real)
    ensures Square(x) >= 0.0
  {
    if x >= 0.0 {
      MulLe(0.0, x, x);
    } else {
      MulLe(x, 0.0, -x);
    }
  }

  function SquaredDeviations(rs: seq<real>, mean: real): (r: seq<real>)
    ensures |r| == |rs|
    ensures forall i :: 0 <= i < |rs| ==> r[i] == Square(rs[i] - mean)
  {
    seq(|rs|, i requires 0 <= i < |rs| => Square(rs[i] - mean))
  }

  /** The population variance (over n), half-up to 8 places. */
  function Variance(rs: seq<real>): real
    requires |rs| > 0
  {
    DivHalfUp(Sum(SquaredDeviations(rs, AverageReturn(rs))), |rs| as real, 8)
  }

  /** The mean times √252 over the deviation times √252, half-up to 2 places. */
  function Annualised(mean: real, deviation: real, annual: real): Result<Option<real>, Fault> {
    if deviation * annual == 0.0 then Failure(DivisionByZero)
    else Success(Some(DivHalfUp(mean * annual, deviation * annual, 2)))
  }

  /** The ratio for a non-empty list of returns. */
  function SharpeOfReturns(rs: seq<real>, sqrt: real -> real): Result<Option<real>, Fault>
    requires |rs| > 0
  {
    var deviation := sqrt(Variance(rs));
    if deviation > 0.0 then Annualised(AverageReturn(rs), deviation, sqrt(252.0))
    else Success(None)
  }

  /**
    calculateSharpeRatio: nothing for fewer than two points or a zero standard
    deviation; otherwise the mean return times √252 over the deviation times
    √252, half-up to 2 places. A zero point before the last throws. The square
    root, taken in double precision by the service, is a parameter.
   */
  function Sharpe(curve: seq<real>, sqrt: real -> real): (r: Result<Option<real>, Fault>)
    ensures |curve| < 2 ==> r == Success(None)
    ensures |curve| >= 2 && !Divisible(curve) ==> r == Failure(DivisionByZero)
  {
    if |curve| < 2 then Success(None)
    else if !Divisible(curve) then Failure(DivisionByZero)
    else SharpeOfReturns(Returns(curve), sqrt)
  }

  /** The returns loop of calculateSharpeRatio. */
  method PeriodReturns(curve: seq<real>) returns (r: Result<seq<real>, Fault>)
    ensures r.Failure? <==> !Divisible(curve)
    ensures r.Failure? ==> r.error == DivisionByZero
    ensures r.Success? ==> r.value == Returns(curve)
  {
    var rs: seq<real> := [];
    var i := 1;
    while i < |curve|
      invariant 1 <= i <= |curve| || (|curve| == 0 && i == 1)
      invariant |rs| == i - 1
      invariant forall j :: 0 <= j < i - 1 ==> curve[j] != 0.0
      invariant forall j :: 0 <= j < i - 1 ==> rs[j] == DivHalfUp(curve[j + 1] - curve[j], curve[j], 8)
    {
      if curve[i - 1] == 0.0 {
        return Failure(DivisionByZero);
      }
      rs := rs + [DivHalfUp(curve[i] - curve[i - 1], curve[i - 1], 8)];
      i := i + 1;
    }
    return Success(rs);
  }

  /** The variance loop of calculateSharpeRatio, before the division. */
  method SumOfSquares(rs: seq<real>, mean: real) returns (squares: real)
    ensures squares == Sum(SquaredDeviations(rs, mean))
  {
    squares := 0.0;
    var k := 0;
    while k < |rs|
      invariant 0 <= k <= |rs|
      invariant squares == Sum(SquaredDeviations(rs[..k], mean))
    {
      assert SquaredDeviations(rs[..k + 1], mean) == SquaredDeviations(rs[..k], mean) + [Square(rs[k] - mean)];
      SumAppend(SquaredDeviations(rs[..k], mean), Square(rs[k] - mean));
      squares := squares + Square(rs[k] - mean);
      k := k + 1;
    }
    assert rs[..k] == rs;
  }

  /** calculateSharpeRatio. */
  method CalculateSharpeRatio(curve: seq<real>, sqrt: real -> real) returns (r: Result<Option<real>, Fault>)
    ensures r == Sharpe(curve, sqrt)
  {
    if |curve| < 2 {
      return Success(None);
    }
    var computed := PeriodReturns(curve);
    if computed.Failure? {
      return Failure(computed.error);
    }
    var rs := computed.value;
    var mean := DivHalfUp(Sum(rs), |rs| as real, 8);
    assert mean == AverageReturn(rs);
    var squares := SumOfSquares(rs, mean);
    var deviation := sqrt(DivHalfUp(squares, |rs| as real, 8));
    assert deviation == sqrt(Variance(rs));
    assert Sharpe(curve, sqrt) == SharpeOfReturns(rs, sqrt);
    if deviation > 0.0 {
      r := Annualised(mean, deviation, sqrt(252.0));
    } else {
      r := Success(None);
    }
  }

  lemma AnnualCancels(mean: real, deviation: real, annual: real)
    requires deviation * annual != 0.0
    ensures (mean * annual) / (deviation * annual) == mean / deviation
  {
    assert deviation != 0.0 && annual != 0.0;
    calc {
      (mean * annual) / (deviation * annual);
      (mean / deviation) * ((deviation * annual) / (deviation * annual));
      mean / deviation;
    }
  }

  lemma NonZeroProduct(a: real, b: real)
    requires a != 0.0 && b != 0.0
    ensures a * b != 0.0
  {
  }

  /**
    For a list of returns: a ratio, when there is one, is the mean return over
    the standard deviation, half-up to 2 places, and has the sign of the mean
    return; with a non-zero √252 nothing throws.
   */
  lemma AnnualisedFacts(mean: real, deviation: real, annual: real)
    requires deviation > 0.0
    ensures annual != 0.0 ==> Annualised(mean, deviation, annual).Success?
    ensures Annualised(mean, deviation, annual).Success? ==>
      && Annualised(mean, deviation, annual).value == Some(RoundHalfUp(mean / deviation, 2))
      && (mean >= 0.0 ==> RoundHalfUp(mean / deviation, 2) >= 0.0)
  {
    if annual != 0.0 {
      NonZeroProduct(deviation, annual);
    }
    if deviation * annual != 0.0 {
      AnnualCancels(mean, deviation, annual);
      if mean >= 0.0 {
        DivHalfUpNonNegative(mean, deviation, 2);
      }
    }
  }

  /**
    The √252 factors cancel: a ratio, when there is one, is the mean return over
    the standard deviation, half-up to 2 places, and has the sign of the mean
    return. With a non-zero √252 the only fault is a zero point before the last.
   */
  lemma SharpeIsMeanOverDeviation(curve: seq<real>, sqrt: real -> real)
    ensures Sharpe(curve, sqrt).Success? && Sharpe(curve, sqrt).value.Some? ==>
      && |curve| >= 2 && Divisible(curve)
      && sqrt(Variance(Returns(curve))) > 0.0
      && Sharpe(curve, sqrt).value.value
        == RoundHalfUp(AverageReturn(Returns(curve)) / sqrt(Variance(Returns(curve))), 2)
      && (AverageReturn(Returns(curve)) >= 0.0 ==> Sharpe(curve, sqrt).value.value >= 0.0)
    ensures sqrt(252.0) != 0.0 ==> (Sharpe(curve, sqrt).Failure? <==> |curve| >= 2 && !Divisible(curve))
  {
    if |curve| >= 2 && Divisible(curve) {
      var rs := Returns(curve);
      assert Sharpe(curve, sqrt) == SharpeOfReturns(rs, sqrt);
      var deviation := sqrt(Variance(rs));
      if deviation > 0.0 {
        AnnualisedFacts(AverageReturn(rs), deviation, sqrt(252.0));
      }
    }
  }

  /** The variance of the returns is never negative. */
  lemma VarianceNonNegative(rs: seq<real>)
    requires |rs| > 0
    ensures Variance(rs) >= 0.0
  {
    var squares := SquaredDeviations(rs, AverageReturn(rs));
    forall i | 0 <= i < |squares|
      ensures squares[i] >= 0.0
    {
      SquareNonNegative(rs[i] - AverageReturn(rs));
    }
    SumNonNegative(squares);
    DivHalfUpNonNegative(Sum(squares), |rs| as real, 8);
  }

  lemma RoundZero(scale: nat)
    ensures RoundHalfUp(0.0, scale) == 0.0
  {
    HasScaleInteger(0, scale);
    RoundHalfUpExact(0.0, scale);
  }

  /** The returns of a flat curve are all zero, and so are their mean and variance. */
  lemma FlatReturns(rs: seq<real>)
    requires |rs| > 0 && forall i :: 0 <= i < |rs| ==> rs[i] == 0.0
    ensures AverageReturn(rs) == 0.0 && Variance(rs) == 0.0
  {
    RoundZero(8);
    SumConstant(rs, 0.0);
    assert Sum(rs) / (|rs| as real) == 0.0;
    var squares := SquaredDeviations(rs, 0.0);
    assert forall i :: 0 <= i < |squares| ==> squares[i] == Square(0.0);
    SumConstant(squares, 0.0);
    assert Sum(squares) / (|rs| as real) == 0.0;
  }

  lemma FlatCurveReturns(curve: seq<real>)
    requires |curve| >= 2 && curve[0] != 0.0
    requires forall i :: 0 <= i < |curve| ==> curve[i] == curve[0]
    ensures Divisible(curve)
    ensures forall i :: 0 <= i < |Returns(curve)| ==> Returns(curve)[i] == 0.0
  {
    RoundZero(8);
    forall i | 0 <= i < |curve| - 1
      ensures DivHalfUp(curve[i + 1] - curve[i], curve[i], 8) == 0.0
    {
      assert (curve[i + 1] - curve[i]) / curve[i] == 0.0;
    }
  }

  /** A flat, non-zero equity curve has no Sharpe ratio (with √0 = 0). */
  lemma FlatCurveHasNoSharpe(curve: seq<real>, sqrt: real -> real)
    requires |curve| >= 2 && sqrt(0.0) == 0.0
    requires forall i :: 0 <= i < |curve| ==> curve[i] == curve[0]
    requires curve[0] != 0.0
    ensures Sharpe(curve, sqrt) == Success(None)
  {
    FlatCurveReturns(curve);
    var rs := Returns(curve);
    FlatReturns(rs);
    assert Sharpe(curve, sqrt) == SharpeOfReturns(rs, sqrt);
  }
}
