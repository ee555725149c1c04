/**
  The records the bot passes around: market bars, strategy signals, positions of the
  live book, backtest trades and results, and the two configuration objects.
  Nullable Java fields are `Option`s; `LocalDateTime` values are epoch milliseconds.
 */
module Domain {
  import opened Wrappers

  /**
    What a Java computation of the core can throw on the inputs it is given;
    PositionNotFound is the RuntimeException("Position not found") of closePosition,
    IllegalArgument the exception `subList` throws for a range that ends before it starts.
   */
  datatype Fault = NullPointer | DivisionByZero | IndexOutOfBounds | PositionNotFound | IllegalArgument

  datatype SignalType = Buy | Sell | Hold

  datatype Strategy =
    | TrendFollowing
    | VolatilityBreakout
    | MeanReversion
    | VolumeSpikeReversal
    | VolumeWeightedBreakout

  /** `Strategy.name()`. */
  function StrategyName(s: Strategy): string {
    match s
    case TrendFollowing => "TREND_FOLLOWING"
    case VolatilityBreakout => "VOLATILITY_BREAKOUT"
    case MeanReversion => "MEAN_REVERSION"
    case VolumeSpikeReversal => "VOLUME_SPIKE_REVERSAL"
    case VolumeWeightedBreakout => "VOLUME_WEIGHTED_BREAKOUT"
  }

  /** One candle (MarketData). */
  datatype Bar = Bar(
    symbol: string,
    timestamp: int,
    open: real,
    high: real,
    low: real,
    close: real,
    volume: real,
    volumeUsdt: real,
    tradeCount: int)

  /** A candle whose high and low bound its open and close. */
  predicate WellFormedBar(b: Bar) {
    b.low <= b.open <= b.high && b.low <= b.close <= b.high
  }

  function Closes(bars: seq<Bar>): (r: seq<real>)
    ensures |r| == |bars|
    ensures forall i :: 0 <= i < |bars| ==> r[i] == bars[i].close
  {
    seq(|bars|, i requires 0 <= i < |bars| => bars[i].close)
  }

  function Highs(bars: seq<Bar>): (r: seq<real>)
    ensures |r| == |bars|
    ensures forall i :: 0 <= i < |bars| ==> r[i] == bars[i].high
  {
    seq(|bars|, i requires 0 <= i < |bars| => bars[i].high)
  }

  function Lows(bars: seq<Bar>): (r: seq<real>)
    ensures |r| == |bars|
    ensures forall i :: 0 <= i < |bars| ==> r[i] == bars[i].low
  {
    seq(|bars|, i requires 0 <= i < |bars| => bars[i].low)
  }

  function Volumes(bars: seq<Bar>): (r: seq<real>)
    ensures |r| == |bars|
    ensures forall i :: 0 <= i < |bars| ==> r[i] == bars[i].volume
  {
    seq(|bars|, i requires 0 <= i < |bars| => bars[i].volume)
  }

  /**
    A strategy's verdict. The signal timestamp (LocalDateTime.now()) is not modelled.
    Every analyzer sets the strategy, so it is not optional here.
   */
  datatype Signal = Signal(
    kind: SignalType,
    strategy: Strategy,
    price: Option<real>,
    stopLoss: Option<real>,
    takeProfit: Option<real>,
    confidence: Option<real>,
    reason: string)

  /** A position of the live book (the `positions` table). */
  datatype Position = Position(
    id: nat,
    strategy: Strategy,
    symbol: string,
    entryPrice: real,
    quantity: real,
    stopLoss: Option<real>,
    takeProfit: Option<real>,
    entryTime: int,
    exitTime: Option<int>,
    exitPrice: Option<real>,
    profit: Option<real>,
    isOpen: bool)

  /** A simulated trade; exit fields stay null until the trade is closed. */
  datatype BacktestTrade = BacktestTrade(
    entryTime: int,
    exitTime: Option<int>,
    entryPrice: real,
    exitPrice: Option<real>,
    quantity: real,
    pnl: Option<real>,
    pnlPercent: Option<real>,
    strategy: Strategy,
    exitReason: Option<string>)

  /** The outcome of a backtest; the never-filled monthly and per-strategy maps are omitted. */
  datatype BacktestResult = BacktestResult(
    initialCapital: real,
    finalCapital: real,
    totalReturn: real,
    totalReturnPercent: real,
    maxDrawdown: real,
    sharpeRatio: Option<real>,
    winRate: Option<real>,
    totalTrades: nat,
    winningTrades: nat,
    losingTrades: nat,
    averageWin: Option<real>,
    averageLoss: Option<real>,
    profitFactor: Option<real>,
    trades: seq<BacktestTrade>)

  datatype BacktestConfig = BacktestConfig(
    lookbackPeriod: int,
    maxPositions: int,
    riskPerTrade: real,
    commission: real,
    slippage: real,
    enableTrendFollowing: bool,
    enableVolatilityBreakout: bool,
    enableMeanReversion: bool,
    enableVolumeSpike: bool)

  /** The field initialisers of BacktestConfig. */
  const DefaultBacktestConfig := BacktestConfig(200, 5, 0.01, 0.001, 0.0005, true, true, true, true)

  datatype StrategyAllocation = StrategyAllocation(
    trendFollowing: real,
    volatilityBreakout: real,
    rangeReversion: real,
    volumeSpikeReversal: real)

  datatype TradingConfig = TradingConfig(
    accountBalance: real,
    riskPerTrade: real,
    maxDrawdown: real,
    allocation: StrategyAllocation)

  /** The field initialisers of TradingConfig. */
  const DefaultTradingConfig := TradingConfig(10000.0, 0.01, 0.15, StrategyAllocation(0.40, 0.30, 0.20, 0.10))

  /** Per-strategy dashboard figures; winRate and avgReturn stay null for an empty group. */
  datatype StrategyMetrics = StrategyMetrics(
    name: string,
    trades: nat,
    pnl: real,
    winRate: Option<real>,
    avgReturn: Option<real>)

  datatype EquityPoint = EquityPoint(timestamp: int, value: real)
}
