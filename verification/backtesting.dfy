/**
  BacktestingService.runBacktest: a walk over the historical bars from the
  lookback period on. At each bar the enabled analyzers see the window of the
  last lookback + 1 bars, a BUY opens a simulated trade while fewer than
  maxPositions are open, and the equity, its running maximum and the largest
  drawdown are recorded. At the end every open trade is closed at the last bar
  and the statistics and the Sharpe ratio are computed.

  The stop and target check and the SELL handler of the service have empty
  bodies, so a SELL or a HOLD changes nothing here either. The cash paid for a
  trade is never paid back when it is closed, so the final capital is the cash
  left after every purchase.
 */
module Backtesting {
  import opened Wrappers
  import opened Decimal
  import opened Series
  import opened Domain
  import opened SignalSelection
  import opened BacktestMetrics

  /** The analyzer switches of a backtest configuration. */
  function EnabledOf(config: BacktestConfig): Enabled {
    Enabled(config.enableTrendFollowing, config.enableVolatilityBreakout,
      config.enableMeanReversion, config.enableVolumeSpike)
  }

  /** The local variables of the bar loop. */
  datatype SimState = SimState(
    capital: real,
    openTrades: seq<BacktestTrade>,
    equityCurve: seq<real>,
    maxEquity: real,
    maxDrawdown: real)

  function Initial(initialCapital: real): SimState {
    SimState(initialCapital, [], [], initialCapital, 0.0)
  }

  /** The bars the analyzers see at bar `i`: the `lookback` before it and itself. */
  function Window(data: seq<Bar>, lookback: nat, i: nat): (w: seq<Bar>)
    requires lookback <= i < |data|
    ensures |w| == lookback + 1 && w[lookback] == data[i]
  {
    data[i - lookback..i + 1]
  }

  /** generateSignals followed by selectBestSignal on one window. */
  function BestSignal(config: BacktestConfig, params: StrategyParams, window: seq<Bar>): Result<Option<Signal>, Fault>
  {
    var signals :- GenerateSignals(EnabledOf(config), params, window);
    Success(SelectBestSignal(signals))
  }

  /**
    openPosition: a trade entered at the bar's close, sized so that the distance
    from the signal's price to its stop risks capital × riskPerTrade: the
    quotient half-up to 8 places, so within half a unit of the eighth decimal
    place, and not negative when the risk amount is not. A missing price or stop
    throws, and so does a zero distance. The commission is computed by the
    service and never used.
   */
  function OpenTrade(signal: Signal, current: Bar, capital: real, config: BacktestConfig): (r: Result<BacktestTrade, Fault>)
    ensures r.Failure? <==>
      signal.price.None? || signal.stopLoss.None? || signal.price.value == signal.stopLoss.value
    ensures r.Success? ==>
      && r.value.entryTime == current.timestamp && r.value.entryPrice == current.close
      && r.value.strategy == signal.strategy
      && r.value.exitTime.None? && r.value.exitPrice.None? && r.value.exitReason.None?
      && r.value.pnl.None? && r.value.pnlPercent.None?
    ensures r.Success? ==>
      var exact := capital * config.riskPerTrade / Abs(signal.price.value - signal.stopLoss.value);
      && exact - 0.000000005 <= r.value.quantity <= exact + 0.000000005
      && (capital * config.riskPerTrade >= 0.0 ==> r.value.quantity >= 0.0)
  {
    if signal.price.None? || signal.stopLoss.None? then Failure(NullPointer)
    else
      var distance := Abs(signal.price.value - signal.stopLoss.value);
      if distance == 0.0 then Failure(DivisionByZero)
      else
        var risk := capital * config.riskPerTrade;
        var quantity := DivHalfUp(risk, distance, 8);
        RoundHalfUpError(risk / distance, 8);
        assert 0.5 / Pow10(8) == 0.000000005;
        if risk >= 0.0 then
          DivHalfUpNonNegative(risk, distance, 8);
          Success(BacktestTrade(current.timestamp, None, current.close, None, quantity, None, None, signal.strategy, None))
        else
          Success(BacktestTrade(current.timestamp, None, current.close, None, quantity, None, None, signal.strategy, None))
  }

  /** The BUY branch: a trade is opened and paid for while fewer than maxPositions are open. */
  function OpenOnBuy(s: SimState, current: Bar, best: Option<Signal>, config: BacktestConfig): (r: Result<SimState, Fault>)
  {
    if best.Some? && best.value.kind == SignalType.Buy && |s.openTrades| < config.maxPositions then
      var trade :- OpenTrade(best.value, current, s.capital, config);
      Success(s.(capital := s.capital - trade.entryPrice * trade.quantity, openTrades := s.openTrades + [trade]))
    else Success(s)
  }

  /**
    The equity at the bar's close joins the curve, raises the running maximum,
    and the drawdown from that maximum, half-up to 4 places, raises the largest
    drawdown. A zero maximum cannot be divided by.
   */
  function Record(s: SimState, current: Bar): (r: Result<SimState, Fault>)
  {
    var equity := Equity(s.capital, s.openTrades, current.close);
    var maxEquity := if equity > s.maxEquity then equity else s.maxEquity;
    if maxEquity == 0.0 then Failure(DivisionByZero)
    else
      var drawdown := DivHalfUp(maxEquity - equity, maxEquity, 4);
      Success(s.(equityCurve := s.equityCurve + [equity], maxEquity := maxEquity,
        maxDrawdown := if drawdown > s.maxDrawdown then drawdown else s.maxDrawdown))
  }

  /** One pass of the bar loop once the best signal is known. */
  function Step(s: SimState, current: Bar, best: Option<Signal>, config: BacktestConfig): Result<SimState, Fault> {
    var bought :- OpenOnBuy(s, current, best, config);
    Record(bought, current)
  }

  /** The best signal at each bar from the lookback period on, in bar order. */
  function Bests(data: seq<Bar>, config: BacktestConfig, params: StrategyParams): (r: seq<Result<Option<Signal>, Fault>>)
    requires 0 <= config.lookbackPeriod <= |data|
    ensures |r| == |data| - config.lookbackPeriod
  {
    var lookback := config.lookbackPeriod;
    seq(|data| - lookback, k requires 0 <= k < |data| - lookback =>
      BestSignal(config, params, Window(data, lookback, lookback + k)))
  }

  /** The best signal of bar `i` is the one of its window. */
  lemma BestsAt(data: seq<Bar>, config: BacktestConfig, params: StrategyParams, i: nat)
    requires 0 <= config.lookbackPeriod <= i < |data|
    ensures Bests(data, config, params)[i - config.lookbackPeriod] == BestSignal(config, params, Window(data, config.lookbackPeriod, i))
  {
  }

  /**
    The bar loop from bar `i` on, given the best signal of every bar from the
    lookback period on: the first fault, of an analyzer or of a step, ends it.
   */
  function Run(data: seq<Bar>, bests: seq<Result<Option<Signal>, Fault>>, config: BacktestConfig, i: nat, s: SimState): Result<SimState, Fault>
    requires 0 <= config.lookbackPeriod <= i && |bests| == |data| - config.lookbackPeriod
    decreases |data| - i
  {
    if i >= |data| then Success(s)
    else
      var best :- bests[i - config.lookbackPeriod];
      var next :- Step(s, data[i], best, config);
      Run(data, bests, config, i + 1, next)
  }

  /**
    After the loop: the open trades closed at the last bar, the final capital
    (the cash, since no open trade is counted), the return and its percentage
    of the initial capital half-up to 4 places, the largest drawdown as a
    percentage, the trade statistics and the Sharpe ratio of the equity curve.
   */
  function Finish(s: SimState, last: Bar, initialCapital: real, sqrt: real -> real): Result<BacktestResult, Fault>
  {
    var closed :- CloseAll(s.openTrades, last);
    var finalCapital := Equity(s.capital, [], last.close);
    var totalReturn := finalCapital - initialCapital;
    if initialCapital == 0.0 then Failure(DivisionByZero)
    else
      ClosedAreClosed(s.openTrades, last);
      var stats := Statistics(closed);
      var sharpe :- Sharpe(s.equityCurve, sqrt);
      Success(BacktestResult(initialCapital, finalCapital, totalReturn,
        DivHalfUp(totalReturn, initialCapital, 4) * 100.0, s.maxDrawdown * 100.0,
        sharpe, stats.winRate, stats.totalTrades, stats.winningTrades, stats.losingTrades,
        stats.averageWin, stats.averageLoss, stats.profitFactor, closed))
  }

  /** Every trade closed at the end has a profit. */
  lemma ClosedAreClosed(trades: seq<BacktestTrade>, last: Bar)
    requires CloseAll(trades, last).Success?
    ensures AllClosed(CloseAll(trades, last).value)
  {
    var closed := CloseAll(trades, last).value;
    forall i | 0 <= i < |closed|
      ensures closed[i].pnl.Some?
    {
      assert Success(closed[i]) == CloseTrade(trades[i], last.close, last.timestamp, EndOfBacktest);
    }
  }

  /**
    runBacktest. A lookback of -1 reads the bar at index -1; a smaller one asks
    for a sub-list that ends before it starts. With no bars there is no last
    bar to close the trades at.
   */
  function Backtest(data: seq<Bar>, initialCapital: real, config: BacktestConfig, params: StrategyParams): (r: Result<BacktestResult, Fault>)
    ensures config.lookbackPeriod == -1 ==> r == Failure(IndexOutOfBounds)
    ensures config.lookbackPeriod < -1 ==> r == Failure(IllegalArgument)
    ensures config.lookbackPeriod >= 0 && |data| == 0 ==> r == Failure(IndexOutOfBounds)
    ensures r.Success? ==> r.value.initialCapital == initialCapital
  {
    if config.lookbackPeriod == -1 then Failure(IndexOutOfBounds)
    else if config.lookbackPeriod < -1 then Failure(IllegalArgument)
    else
      var s :- Simulation(data, initialCapital, config, params);
      if |data| == 0 then Failure(IndexOutOfBounds)
      else Finish(s, data[|data| - 1], initialCapital, params.sqrt)
  }

  /** The bar loop from the lookback period on; it does not run when there are no more bars than that. */
  function Simulation(data: seq<Bar>, initialCapital: real, config: BacktestConfig, params: StrategyParams): Result<SimState, Fault>
    requires config.lookbackPeriod >= 0
  {
    if config.lookbackPeriod >= |data| then Success(Initial(initialCapital))
    else Run(data, Bests(data, config, params), config, config.lookbackPeriod, Initial(initialCapital))
  }

  /** One bar of the loop, once its signal and its step have succeeded. */
  lemma RunUnfold(data: seq<Bar>, bests: seq<Result<Option<Signal>, Fault>>, config: BacktestConfig, i: nat, s: SimState, next: SimState)
    requires 0 <= config.lookbackPeriod <= i < |data| && |bests| == |data| - config.lookbackPeriod
    requires bests[i - config.lookbackPeriod].Success?
    requires Step(s, data[i], bests[i - config.lookbackPeriod].value, config) == Success(next)
    ensures Run(data, bests, config, i, s) == Run(data, bests, config, i + 1, next)
  {
  }

  // ---------------------------------------------------------------- properties

  /** What a trade cost when it was opened. */
  function Cost(t: BacktestTrade): real {
    t.entryPrice * t.quantity
  }

  function Costs(trades: seq<BacktestTrade>): (r: seq<real>)
    ensures |r| == |trades|
    ensures forall k :: 0 <= k < |trades| ==> r[k] == Cost(trades[k])
  {
    seq(|trades|, k requires 0 <= k < |trades| => Cost(trades[k]))
  }

  /** The most trades that can be open at once. */
  function MaxOpen(config: BacktestConfig): nat {
    if config.maxPositions > 0 then config.maxPositions else 0
  }

  /**
    What the bar loop keeps: no more than maxPositions trades open, the cash is
    the initial capital less what the open trades cost, the running maximum is
    at least the initial capital and the largest drawdown is not negative.
   */
  predicate Inv(s: SimState, initialCapital: real, config: BacktestConfig) {
    && |s.openTrades| <= MaxOpen(config)
    && s.capital == initialCapital - Sum(Costs(s.openTrades))
    && s.maxEquity >= initialCapital
    && s.maxDrawdown >= 0.0
  }

  /**
    A bar opens one trade exactly when its best signal is a BUY and fewer than
    maxPositions are open, and pays its cost out of the cash; a SELL or a HOLD
    changes neither. The bar's equity joins the curve, and the running maximum
    and the largest drawdown never fall.
   */
  lemma StepFacts(s: SimState, current: Bar, best: Option<Signal>, config: BacktestConfig)
    requires Step(s, current, best, config).Success?
    ensures var next := Step(s, current, best, config).value;
      var buys := best.Some? && best.value.kind == SignalType.Buy && |s.openTrades| < config.maxPositions;
      && (buys ==> |next.openTrades| == |s.openTrades| + 1 && next.openTrades[..|s.openTrades|] == s.openTrades)
      && (buys ==> next.capital == s.capital - Cost(next.openTrades[|s.openTrades|]))
      && (!buys ==> next.openTrades == s.openTrades && next.capital == s.capital)
      && next.equityCurve == s.equityCurve + [Equity(next.capital, next.openTrades, current.close)]
      && next.maxEquity >= s.maxEquity && next.maxDrawdown >= s.maxDrawdown
  {
    var bought := OpenOnBuy(s, current, best, config).value;
    assert Step(s, current, best, config) == Record(bought, current);
    OpenOnBuyFacts(s, current, best, config);
    RecordFacts(bought, current);
  }

  /** The BUY branch appends one trade and pays for it, or changes nothing. */
  lemma OpenOnBuyFacts(s: SimState, current: Bar, best: Option<Signal>, config: BacktestConfig)
    requires OpenOnBuy(s, current, best, config).Success?
    ensures var next := OpenOnBuy(s, current, best, config).value;
      var buys := best.Some? && best.value.kind == SignalType.Buy && |s.openTrades| < config.maxPositions;
      && (buys ==> |next.openTrades| == |s.openTrades| + 1 && next.openTrades[..|s.openTrades|] == s.openTrades)
      && (buys ==> next.capital == s.capital - Cost(next.openTrades[|s.openTrades|]))
      && (!buys ==> next.openTrades == s.openTrades && next.capital == s.capital)
      && next.equityCurve == s.equityCurve && next.maxEquity == s.maxEquity && next.maxDrawdown == s.maxDrawdown
  {
    if best.Some? && best.value.kind == SignalType.Buy && |s.openTrades| < config.maxPositions {
      var trade := OpenTrade(best.value, current, s.capital, config).value;
      assert (s.openTrades + [trade])[..|s.openTrades|] == s.openTrades;
    }
  }

  /** Recording keeps the trades and the cash, appends the equity and never lowers the maxima. */
  lemma RecordFacts(s: SimState, current: Bar)
    requires Record(s, current).Success?
    ensures var next := Record(s, current).value;
      && next.openTrades == s.openTrades && next.capital == s.capital
      && next.equityCurve == s.equityCurve + [Equity(s.capital, s.openTrades, current.close)]
      && next.maxEquity >= s.maxEquity && next.maxDrawdown >= s.maxDrawdown
  {
  }


  /** A step keeps the loop's invariant. */
  lemma StepKeepsInv(s: SimState, current: Bar, best: Option<Signal>, config: BacktestConfig, initialCapital: real)
    requires Inv(s, initialCapital, config) && Step(s, current, best, config).Success?
    ensures Inv(Step(s, current, best, config).value, initialCapital, config)
  {
    var next := Step(s, current, best, config).value;
    StepFacts(s, current, best, config);
    if best.Some? && best.value.kind == SignalType.Buy && |s.openTrades| < config.maxPositions {
      var n := |s.openTrades|;
      var t := next.openTrades[n];
      assert next.openTrades == s.openTrades + [t];
      assert Costs(next.openTrades) == Costs(s.openTrades) + [Cost(t)];
      SumAppend(Costs(s.openTrades), Cost(t));
    }
  }

  /** The loop from bar `i` on keeps the invariant and adds one point per bar to the curve. */
  lemma {:induction false} RunKeepsInv(data: seq<Bar>, bests: seq<Result<Option<Signal>, Fault>>, config: BacktestConfig,
                                       i: nat, s: SimState, initialCapital: real)
    requires 0 <= config.lookbackPeriod <= i && |bests| == |data| - config.lookbackPeriod
    requires Inv(s, initialCapital, config) && Run(data, bests, config, i, s).Success?
    ensures var final := Run(data, bests, config, i, s).value;
      && Inv(final, initialCapital, config)
      && |final.equityCurve| == |s.equityCurve| + (if i < |data| then |data| - i else 0)
      && final.maxDrawdown >= s.maxDrawdown
    decreases |data| - i
  {
    if i < |data| {
      var best := bests[i - config.lookbackPeriod].value;
      var next := Step(s, data[i], best, config).value;
      RunUnfold(data, bests, config, i, s, next);
      StepFacts(s, data[i], best, config);
      StepKeepsInv(s, data[i], best, config, initialCapital);
      RunKeepsInv(data, bests, config, i + 1, next, initialCapital);
    }
  }

  /** Closing a trade keeps its cost. */
  lemma CloseAllKeepsCosts(trades: seq<BacktestTrade>, last: Bar)
    requires CloseAll(trades, last).Success?
    ensures Costs(CloseAll(trades, last).value) == Costs(trades)
  {
    var closed := CloseAll(trades, last).value;
    forall k | 0 <= k < |trades|
      ensures Costs(closed)[k] == Costs(trades)[k]
    {
      assert Success(closed[k]) == CloseTrade(trades[k], last.close, last.timestamp, EndOfBacktest);
    }
  }

  /**
    A backtest that completes reports at most maxPositions trades, each closed
    at the last bar as "End of backtest"; its final capital is the initial
    capital less what the trades cost, since closing a trade pays nothing back,
    so the total return is minus that cost; the largest drawdown is not
    negative; and the trades are counted as wins or losses.
   */
  lemma BacktestFacts(data: seq<Bar>, initialCapital: real, config: BacktestConfig, params: StrategyParams)
    requires Backtest(data, initialCapital, config, params).Success?
    ensures var r := Backtest(data, initialCapital, config, params).value;
      && |r.trades| <= MaxOpen(config)
      && (forall k :: 0 <= k < |r.trades| ==>
            r.trades[k].exitPrice == Some(data[|data| - 1].close) && r.trades[k].exitReason == Some(EndOfBacktest))
      && r.finalCapital == initialCapital - Sum(Costs(r.trades))
      && r.totalReturn == -Sum(Costs(r.trades))
      && r.maxDrawdown >= 0.0
      && r.totalTrades == |r.trades| && r.winningTrades + r.losingTrades == r.totalTrades
  {
    var s := Simulation(data, initialCapital, config, params).value;
    if config.lookbackPeriod < |data| {
      RunKeepsInv(data, Bests(data, config, params), config, config.lookbackPeriod, Initial(initialCapital), initialCapital);
    } else {
      assert s == Initial(initialCapital);
    }
    assert Inv(s, initialCapital, config);
    var last := data[|data| - 1];
    var closed := CloseAll(s.openTrades, last).value;
    ClosedAreClosed(s.openTrades, last);
    CloseAllKeepsCosts(s.openTrades, last);
    TallyFacts(closed);
    var r := Finish(s, last, initialCapital, params.sqrt).value;
    assert r.trades == closed && r.finalCapital == s.capital + Sum([]);
    assert r.maxDrawdown == s.maxDrawdown * 100.0;
    forall k | 0 <= k < |closed|
      ensures closed[k].exitPrice == Some(last.close) && closed[k].exitReason == Some(EndOfBacktest)
    {
      assert Success(closed[k]) == CloseTrade(s.openTrades[k], last.close, last.timestamp, EndOfBacktest);
    }
  }

  /** With every analyzer switched off there is never a signal to act on. */
  lemma DisabledHasNoSignal(config: BacktestConfig, params: StrategyParams, window: seq<Bar>)
    requires !config.enableTrendFollowing && !config.enableVolatilityBreakout
    requires !config.enableMeanReversion && !config.enableVolumeSpike
    ensures BestSignal(config, params, window) == Success(None)
  {
    var signals := GenerateSignals(EnabledOf(config), params, window);
    assert signals.Success?;
    assert |StrategiesOf(signals.value)| == 0;
  }

  /** A bar with no signal and nothing open records the cash as equity and no drawdown. */
  lemma {:induction false} QuietRun(data: seq<Bar>, bests: seq<Result<Option<Signal>, Fault>>, config: BacktestConfig,
                                    i: nat, s: SimState, initialCapital: real)
    requires 0 <= config.lookbackPeriod <= i && |bests| == |data| - config.lookbackPeriod
    requires forall k :: 0 <= k < |bests| ==> bests[k] == Success(None)
    requires initialCapital > 0.0
    requires s.openTrades == [] && s.capital == initialCapital && s.maxEquity == initialCapital && s.maxDrawdown == 0.0
    requires forall k :: 0 <= k < |s.equityCurve| ==> s.equityCurve[k] == initialCapital
    ensures Run(data, bests, config, i, s).Success?
    ensures var final := Run(data, bests, config, i, s).value;
      && final.openTrades == [] && final.capital == initialCapital && final.maxDrawdown == 0.0
      && |final.equityCurve| == |s.equityCurve| + (if i < |data| then |data| - i else 0)
      && forall k :: 0 <= k < |final.equityCurve| ==> final.equityCurve[k] == initialCapital
    decreases |data| - i
  {
    if i < |data| {
      assert Equity(s.capital, [], data[i].close) == initialCapital;
      RoundZero(4);
      assert DivHalfUp(initialCapital - initialCapital, initialCapital, 4) == 0.0;
      var next := s.(equityCurve := s.equityCurve + [initialCapital]);
      assert Step(s, data[i], None, config) == Success(next);
      RunUnfold(data, bests, config, i, s, next);
      QuietRun(data, bests, config, i + 1, next, initialCapital);
    }
  }

  /**
    With every analyzer switched off, a positive initial capital and at least
    one bar, the backtest makes no trade: the capital is unchanged, the return
    and the drawdown are zero and there is no Sharpe ratio (the square root of
    zero being zero).
   */
  lemma NoAnalyzersNoTrades(data: seq<Bar>, initialCapital: real, config: BacktestConfig, params: StrategyParams)
    requires !config.enableTrendFollowing && !config.enableVolatilityBreakout
    requires !config.enableMeanReversion && !config.enableVolumeSpike
    requires config.lookbackPeriod >= 0 && |data| > 0 && initialCapital > 0.0 && params.sqrt(0.0) == 0.0
    ensures Backtest(data, initialCapital, config, params).Success?
    ensures var r := Backtest(data, initialCapital, config, params).value;
      && r.trades == [] && r.totalTrades == 0
      && r.finalCapital == initialCapital && r.totalReturn == 0.0 && r.totalReturnPercent == 0.0
      && r.maxDrawdown == 0.0 && r.sharpeRatio == None
  {
    var s := QuietSimulation(data, initialCapital, config, params);
    assert Backtest(data, initialCapital, config, params) == Finish(s, data[|data| - 1], initialCapital, params.sqrt);
    QuietFinish(s, data[|data| - 1], initialCapital, params.sqrt);
  }

  /** With every analyzer switched off the bar loop only records the unchanged cash. */
  lemma QuietSimulation(data: seq<Bar>, initialCapital: real, config: BacktestConfig, params: StrategyParams)
    returns (s: SimState)
    requires !config.enableTrendFollowing && !config.enableVolatilityBreakout
    requires !config.enableMeanReversion && !config.enableVolumeSpike
    requires config.lookbackPeriod >= 0 && initialCapital > 0.0
    ensures Simulation(data, initialCapital, config, params) == Success(s)
    ensures s.openTrades == [] && s.capital == initialCapital && s.maxDrawdown == 0.0
    ensures forall k :: 0 <= k < |s.equityCurve| ==> s.equityCurve[k] == initialCapital
  {
    if config.lookbackPeriod < |data| {
      var bests := Bests(data, config, params);
      DisabledBests(data, config, params);
      QuietRun(data, bests, config, config.lookbackPeriod, Initial(initialCapital), initialCapital);
      s := Run(data, bests, config, config.lookbackPeriod, Initial(initialCapital)).value;
    } else {
      s := Initial(initialCapital);
    }
  }

  /** With every analyzer switched off no bar has a signal. */
  lemma DisabledBests(data: seq<Bar>, config: BacktestConfig, params: StrategyParams)
    requires !config.enableTrendFollowing && !config.enableVolatilityBreakout
    requires !config.enableMeanReversion && !config.enableVolumeSpike
    requires 0 <= config.lookbackPeriod <= |data|
    ensures forall k :: 0 <= k < |Bests(data, config, params)| ==> Bests(data, config, params)[k] == Success(None)
  {
    var bests := Bests(data, config, params);
    forall k | 0 <= k < |bests|
      ensures bests[k] == Success(None)
    {
      BestsAt(data, config, params, config.lookbackPeriod + k);
      DisabledHasNoSignal(config, params, Window(data, config.lookbackPeriod, config.lookbackPeriod + k));
    }
  }

  /** Closing nothing after a loop that never traded reports no trade, no return, no drawdown and no Sharpe ratio. */
  lemma QuietFinish(s: SimState, last: Bar, initialCapital: real, sqrt: real -> real)
    requires s.openTrades == [] && s.capital == initialCapital && s.maxDrawdown == 0.0
    requires forall k :: 0 <= k < |s.equityCurve| ==> s.equityCurve[k] == initialCapital
    requires initialCapital > 0.0 && sqrt(0.0) == 0.0
    ensures Finish(s, last, initialCapital, sqrt).Success?
    ensures var r := Finish(s, last, initialCapital, sqrt).value;
      && r.trades == [] && r.totalTrades == 0
      && r.finalCapital == initialCapital && r.totalReturn == 0.0 && r.totalReturnPercent == 0.0
      && r.maxDrawdown == 0.0 && r.sharpeRatio == None
  {
    var curve := s.equityCurve;
    if |curve| >= 2 {
      FlatCurveHasNoSharpe(curve, sqrt);
    }
    RoundZero(4);
    assert CloseAll([], last) == Success([]);
    assert DivHalfUp(0.0, initialCapital, 4) == 0.0;
  }

  // ---------------------------------------------------------------- the loop as written

  /** runBacktest: the bar loop, then the closing loop and the final metrics. */
  method RunBacktest(data: seq<Bar>, initialCapital: real, config: BacktestConfig, params: StrategyParams)
    returns (r: Result<BacktestResult, Fault>)
    ensures r == Backtest(data, initialCapital, config, params)
  {
    var lookback := config.lookbackPeriod;
    if lookback == -1 {
      return Failure(IndexOutOfBounds);
    } else if lookback < -1 {
      return Failure(IllegalArgument);
    }
    var s := SimulateBars(data, initialCapital, config, params);
    if s.Failure? {
      return Failure(s.error);
    }
    if |data| == 0 {
      return Failure(IndexOutOfBounds);
    }
    r := Conclude(s.value, data[|data| - 1], initialCapital, params.sqrt);
  }

  /** The bar loop of runBacktest. */
  method SimulateBars(data: seq<Bar>, initialCapital: real, config: BacktestConfig, params: StrategyParams)
    returns (r: Result<SimState, Fault>)
    requires config.lookbackPeriod >= 0
    ensures r == Simulation(data, initialCapital, config, params)
  {
    var lookback := config.lookbackPeriod;
    var s := Initial(initialCapital);
    var i := lookback;
    if lookback >= |data| {
      return Success(s);
    }
    ghost var bests := Bests(data, config, params);
    while i < |data|
      invariant lookback <= i <= |data|
      invariant Run(data, bests, config, lookback, Initial(initialCapital)) == Run(data, bests, config, i, s)
      decreases |data| - i
    {
      var best := BestAt(config, params, data, i);
      BestsAt(data, config, params, i);
      if best.Failure? {
        return Failure(best.error);
      }
      var next := ProcessBar(s, data[i], best.value, config);
      if next.Failure? {
        return Failure(next.error);
      }
      RunUnfold(data, bests, config, i, s, next.value);
      s := next.value;
      i := i + 1;
    }
    r := Success(s);
  }

  /** generateSignals and selectBestSignal on the window of bar `i`. */
  method BestAt(config: BacktestConfig, params: StrategyParams, data: seq<Bar>, i: nat) returns (best: Result<Option<Signal>, Fault>)
    requires 0 <= config.lookbackPeriod <= i < |data|
    ensures best == BestSignal(config, params, Window(data, config.lookbackPeriod, i))
  {
    var window := data[i - config.lookbackPeriod..i + 1];
    assert window == Window(data, config.lookbackPeriod, i);
    var signals := GenerateSignals(EnabledOf(config), params, window);
    if signals.Failure? {
      return Failure(signals.error);
    }
    best := Success(SelectBestSignal(signals.value));
  }

  /** The body of the bar loop once the best signal is known: the BUY branch, then the equity record. */
  method ProcessBar(s: SimState, current: Bar, best: Option<Signal>, config: BacktestConfig) returns (r: Result<SimState, Fault>)
    ensures r == Step(s, current, best, config)
  {
    var capital := s.capital;
    var openTrades := s.openTrades;
    if best.Some? && best.value.kind == SignalType.Buy && |openTrades| < config.maxPositions {
      var trade := OpenTrade(best.value, current, capital, config);
      if trade.Failure? {
        return Failure(trade.error);
      }
      openTrades := openTrades + [trade.value];
      capital := capital - trade.value.entryPrice * trade.value.quantity;
      assert OpenOnBuy(s, current, best, config).value.openTrades == openTrades;
      assert OpenOnBuy(s, current, best, config).value.capital == capital;
    }
    assert OpenOnBuy(s, current, best, config) == Success(s.(capital := capital, openTrades := openTrades));
    var equity := CalculateEquity(capital, openTrades, current.close);
    var maxEquity := s.maxEquity;
    if equity > maxEquity {
      maxEquity := equity;
    }
    if maxEquity == 0.0 {
      return Failure(DivisionByZero);
    }
    var drawdown := DivHalfUp(maxEquity - equity, maxEquity, 4);
    var maxDrawdown := s.maxDrawdown;
    if drawdown > maxDrawdown {
      maxDrawdown := drawdown;
    }
    r := Success(SimState(capital, openTrades, s.equityCurve + [equity], maxEquity, maxDrawdown));
  }

  /** The closing loop and the final metrics of runBacktest. */
  method Conclude(s: SimState, last: Bar, initialCapital: real, sqrt: real -> real) returns (r: Result<BacktestResult, Fault>)
    ensures r == Finish(s, last, initialCapital, sqrt)
  {
    var closed := CloseRemaining(s.openTrades, last);
    if closed.Failure? {
      return Failure(closed.error);
    }
    var finalCapital := CalculateEquity(s.capital, [], last.close);
    var totalReturn := finalCapital - initialCapital;
    if initialCapital == 0.0 {
      return Failure(DivisionByZero);
    }
    ClosedAreClosed(s.openTrades, last);
    var stats := CalculateTradeStatistics(closed.value);
    var sharpe := CalculateSharpeRatio(s.equityCurve, sqrt);
    if sharpe.Failure? {
      return Failure(sharpe.error);
    }
    r := Success(BacktestResult(initialCapital, finalCapital, totalReturn,
      DivHalfUp(totalReturn, initialCapital, 4) * 100.0, s.maxDrawdown * 100.0,
      sharpe.value, stats.winRate, stats.totalTrades, stats.winningTrades, stats.losingTrades,
      stats.averageWin, stats.averageLoss, stats.profitFactor, closed.value));
  }
}
