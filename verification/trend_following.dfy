/**
  TrendFollowingStrategy: buy a breakout above the recent high when price is above
  a rising short moving average and volume confirms; exit when price falls below
  the short average.
 */
module TrendFollowing {
  import opened Wrappers
  import opened Decimal
  import opened Series
  import opened Domain
  import opened Indicators
  import opened StrategyCommon

  /** The `trading.strategies.trend-following.*` settings. */
  datatype Params = Params(
    smaShort: Period,
    smaLong: Period,
    breakoutPeriod: Period,
    volumeMultiplier: real,
    atrMultiplier: real)


  /** The ATR period used for the stop distance. */
  const AtrPeriod: nat := 14

  /** Math.max(smaLong, breakoutPeriod): the fewest bars the analyzer works with. */
  function MinimumBars(p: Params): nat {
    if p.smaLong >= p.breakoutPeriod then p.smaLong else p.breakoutPeriod
  }

  /** The highest high of the last `breakoutPeriod` bars. */
  function BreakoutHigh(p: Params, bars: seq<Bar>): real {
    MaxOrZero(Highs(Last(bars, p.breakoutPeriod)))
  }

  /** The four entry conditions, on a window long enough for both moving averages. */
  predicate BuyConditions(p: Params, bars: seq<Bar>)
    requires |bars| >= MinimumBars(p) && |bars| >= p.smaShort
  {
    var closes := Closes(bars);
    var smaShort := Sma(closes, p.smaShort).value;
    var smaLong := Sma(closes, p.smaLong).value;
    var current := bars[|bars| - 1];
    && current.close > smaShort
    && smaShort > smaLong
    && current.close >= BreakoutHigh(p, bars)
    && current.volume > AverageVolume20(bars) * p.volumeMultiplier
  }

  /** The exit condition: the close is below the short moving average. */
  predicate BelowShortAverage(p: Params, bars: seq<Bar>)
    requires |bars| >= 1 && |bars| >= p.smaShort
  {
    bars[|bars| - 1].close < Sma(Closes(bars), p.smaShort).value
  }

  /** The BUY built at `price`: stop ATR·multiplier below, target twice that above. */
  function BuySignal(price: real, atr: real, atrMultiplier: real): Signal {
    Signal(Buy, TrendFollowing, Some(price),
      Some(price - atr * atrMultiplier),
      Some(price + atr * (atrMultiplier * 2.0)),
      Some(0.75), "Trend + Breakout + Volume confirmation")
  }

  /**
    analyze. A window shorter than smaShort (but long enough for the guard) leaves
    the short average null and comparing with it throws; so does a BUY with fewer
    than 15 bars, whose ATR is null.
   */
  function Analyze(p: Params, bars: seq<Bar>): (r: Result<Signal, Fault>)
    ensures r.Success? ==> r.value.strategy == TrendFollowing
    ensures r.Failure? ==> r.error == NullPointer
  {
    if |bars| < MinimumBars(p) then Success(HoldSignal(TrendFollowing, "Insufficient data"))
    else if |bars| < p.smaShort then Failure(NullPointer)
    else
      var price := bars[|bars| - 1].close;
      if BuyConditions(p, bars) then
        var atr := Atr(bars, AtrPeriod);
        if atr.None? then Failure(NullPointer)
        else Success(BuySignal(price, atr.value, p.atrMultiplier))
      else if BelowShortAverage(p, bars) then
        Success(Signal(Sell, TrendFollowing, Some(price), None, None, Some(0.70), "Price below SMA50 - trend exit"))
      else Success(HoldSignal(TrendFollowing, "No trend signal"))
  }

  /** Too short a window gives HOLD "Insufficient data" with no confidence. */
  lemma InsufficientData(p: Params, bars: seq<Bar>)
    requires |bars| < MinimumBars(p)
    ensures Analyze(p, bars) == Success(HoldSignal(TrendFollowing, "Insufficient data"))
    ensures Analyze(p, bars).value.confidence.None?
  {
  }

  /** The analyzer throws exactly when the short average or a needed ATR is missing. */
  lemma FailsIff(p: Params, bars: seq<Bar>)
    ensures Analyze(p, bars).Failure? <==>
      |bars| >= MinimumBars(p) &&
      (|bars| < p.smaShort || (BuyConditions(p, bars) && |bars| < AtrPeriod + 1))
  {
  }

  /** What a BUY result implies: the window guards, the entry conditions and a known ATR. */
  lemma BuyFacts(p: Params, bars: seq<Bar>)
    requires Analyze(p, bars).Success? && Analyze(p, bars).value.kind == Buy
    ensures |bars| >= MinimumBars(p) && |bars| >= p.smaShort && BuyConditions(p, bars)
    ensures Atr(bars, AtrPeriod).Some?
  {
    assert |bars| >= MinimumBars(p);
    assert |bars| >= p.smaShort;
  }

  /** On a long enough window the entry conditions lead to a BUY whenever no exception is thrown. */
  lemma ConditionsGiveBuy(p: Params, bars: seq<Bar>)
    requires Analyze(p, bars).Success?
    requires |bars| >= MinimumBars(p) && |bars| >= p.smaShort && BuyConditions(p, bars)
    ensures Atr(bars, AtrPeriod).Some?
    ensures Analyze(p, bars) == Success(BuySignal(bars[|bars| - 1].close, Atr(bars, AtrPeriod).value, p.atrMultiplier))
  {
  }

  /** A BUY is emitted exactly when the window is long enough and all four entry conditions hold. */
  lemma BuyIff(p: Params, bars: seq<Bar>)
    requires Analyze(p, bars).Success?
    ensures Analyze(p, bars).value.kind == Buy <==>
      |bars| >= MinimumBars(p) && |bars| >= p.smaShort && BuyConditions(p, bars)
  {
    if Analyze(p, bars).value.kind == Buy {
      BuyFacts(p, bars);
    }
    if |bars| >= MinimumBars(p) && |bars| >= p.smaShort && BuyConditions(p, bars) {
      ConditionsGiveBuy(p, bars);
    }
  }

  /**
    A BUY is priced at the close, with the stop ATR·atrMultiplier below it and the
    target twice as far above it; the confidence is 0.75.
   */
  lemma BuyLevels(p: Params, bars: seq<Bar>)
    requires Analyze(p, bars).Success? && Analyze(p, bars).value.kind == Buy
    ensures |bars| >= AtrPeriod + 1
    ensures Analyze(p, bars).value == BuySignal(bars[|bars| - 1].close, Atr(bars, AtrPeriod).value, p.atrMultiplier)
  {
    BuyFacts(p, bars);
    ConditionsGiveBuy(p, bars);
  }

  /**
    The target of a BUY is twice as far from the price as the stop, and with a
    non-negative ATR and multiplier the stop is below the price and the target above.
   */
  lemma BuySignalLevels(price: real, atr: real, atrMultiplier: real)
    ensures var s := BuySignal(price, atr, atrMultiplier);
      && s.price == Some(price) && s.stopLoss.Some? && s.takeProfit.Some?
      && s.takeProfit.value - price == 2.0 * (price - s.stopLoss.value)
      && s.confidence == Some(0.75)
    ensures atr >= 0.0 && atrMultiplier >= 0.0 ==>
      var s := BuySignal(price, atr, atrMultiplier);
      s.stopLoss.value <= price <= s.takeProfit.value
  {
    assert atr * (atrMultiplier * 2.0) == 2.0 * (atr * atrMultiplier);
    if atr >= 0.0 && atrMultiplier >= 0.0 {
      MulLe(0.0, atr, atrMultiplier);
    }
  }

  /**
    A SELL is emitted only when the entry conditions fail and the close is below the
    short average; it carries no stop or target and confidence 0.70.
   */
  lemma SellOnlyBelowAverage(p: Params, bars: seq<Bar>)
    requires Analyze(p, bars).Success? && Analyze(p, bars).value.kind == Sell
    ensures |bars| >= MinimumBars(p) && |bars| >= p.smaShort
    ensures !BuyConditions(p, bars) && BelowShortAverage(p, bars)
    ensures var s := Analyze(p, bars).value;
      s.stopLoss.None? && s.takeProfit.None? && s.confidence == Some(0.70)
  {
  }

  /** When neither entry nor exit applies the result is HOLD "No trend signal". */
  lemma FallThroughIsHold(p: Params, bars: seq<Bar>)
    requires |bars| >= MinimumBars(p) && |bars| >= p.smaShort
    requires !BuyConditions(p, bars) && !BelowShortAverage(p, bars)
    ensures Analyze(p, bars) == Success(HoldSignal(TrendFollowing, "No trend signal"))
  {
  }

  /**
    The breakout high includes the current bar, so on a well-formed last bar a BUY
    needs the close to equal that bar's high.
   */
  lemma BuyClosesAtHigh(p: Params, bars: seq<Bar>)
    requires Analyze(p, bars).Success? && Analyze(p, bars).value.kind == Buy
    requires WellFormedBar(bars[|bars| - 1])
    ensures bars[|bars| - 1].close == bars[|bars| - 1].high
  {
    BuyFacts(p, bars);
    BreakoutHighCoversLast(p, bars);
  }

  /** The breakout window ends at the current bar, so its high is at least that bar's high. */
  lemma BreakoutHighCoversLast(p: Params, bars: seq<Bar>)
    requires |bars| >= 1
    ensures BreakoutHigh(p, bars) >= bars[|bars| - 1].high
  {
    var w := Highs(Last(bars, p.breakoutPeriod));
    assert w[|w| - 1] == bars[|bars| - 1].high;
  }
}
