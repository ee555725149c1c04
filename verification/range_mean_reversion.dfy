/**
  RangeMeanReversionStrategy: when the recent range is between 5% and 15% of the
  mean price, sell a close at or above the upper Bollinger band and buy a close at
  or below the lower band, both only on below-average volume.
 */
module RangeMeanReversion {
  import opened Wrappers
  import opened Decimal
  import opened Series
  import opened Domain
  import opened Indicators
  import opened StrategyCommon

  /**
    The `trading.strategies.mean-reversion.*` settings. The volume multiplier is
    read from the configuration but never used by the analyzer.
   */
  datatype Params = Params(
    rangePeriod: Period,
    bollingerPeriod: Period,
    bollingerStd: real,
    volumeMultiplier: real)


  /** Math.max(rangePeriod, bollingerPeriod). */
  function MinimumBars(p: Params): nat {
    if p.rangePeriod >= p.bollingerPeriod then p.rangePeriod else p.bollingerPeriod
  }

  function RangeHigh(p: Params, bars: seq<Bar>): real {
    MaxOrZero(Highs(Last(bars, p.rangePeriod)))
  }

  function RangeLow(p: Params, bars: seq<Bar>): real {
    MinOrZero(Lows(Last(bars, p.rangePeriod)))
  }

  /** The sum of the last rangePeriod closes over rangePeriod, half-up to 8 places. */
  function MeanPrice(p: Params, bars: seq<Bar>): real
  {
    DivHalfUp(Sum(Closes(Last(bars, p.rangePeriod))), p.rangePeriod as real, 8)
  }

  /** (high − low) / mean, half-up to 8 places, times 100. */
  function RangePercent(p: Params, bars: seq<Bar>): real
    requires MeanPrice(p, bars) != 0.0
  {
    DivHalfUp(RangeHigh(p, bars) - RangeLow(p, bars), MeanPrice(p, bars), 8) * 100.0
  }

  /** The range filter: strictly between 5% and 15%. */
  predicate InRange(percent: real) {
    5.0 < percent < 15.0
  }

  function SellSignal(price: real, rangeHigh: real, middle: real): Signal {
    Signal(Sell, MeanReversion, Some(price), Some(rangeHigh * 1.02), Some(middle),
      Some(0.65), "Price at upper Bollinger Band in range")
  }

  function BuySignal(price: real, rangeLow: real, middle: real): Signal {
    Signal(Buy, MeanReversion, Some(price), Some(rangeLow * 0.98), Some(middle),
      Some(0.65), "Price at lower Bollinger Band in range")
  }

  /** The band tests made once the range filter has passed; the upper band is tested first. */
  function BandSignal(price: real, bands: Bands, lowVolume: bool, rangeHigh: real, rangeLow: real): (s: Signal)
    ensures s.strategy == MeanReversion
  {
    if price >= bands.upper && lowVolume then SellSignal(price, rangeHigh, bands.middle)
    else if price <= bands.lower && lowVolume then BuySignal(price, rangeLow, bands.middle)
    else HoldSignal(MeanReversion, "No mean reversion opportunity")
  }

  /** The Bollinger bands of all the closes. */
  function CurrentBands(p: Params, bars: seq<Bar>, sqrt: real -> real): Bands
    requires |bars| >= p.bollingerPeriod
  {
    BollingerBands(Closes(bars), p.bollingerPeriod, p.bollingerStd, sqrt).value
  }

  /**
    analyze. A mean price that rounds to zero makes the range-percent division
    throw ArithmeticException.
   */
  function Analyze(p: Params, bars: seq<Bar>, sqrt: real -> real): (r: Result<Signal, Fault>)
    ensures r.Success? ==> r.value.strategy == MeanReversion
    ensures r.Failure? ==> r.error == DivisionByZero
  {
    if |bars| < MinimumBars(p) then Success(HoldSignal(MeanReversion, "Insufficient data"))
    else if MeanPrice(p, bars) == 0.0 then Failure(DivisionByZero)
    else if !InRange(RangePercent(p, bars)) then Success(HoldSignal(MeanReversion, "No mean reversion opportunity"))
    else
      var bands := CurrentBands(p, bars, sqrt);
      var current := bars[|bars| - 1];
      var lowVolume := current.volume < AverageVolume20(bars);
      Success(BandSignal(current.close, bands, lowVolume, RangeHigh(p, bars), RangeLow(p, bars)))
  }

  /** Too short a window gives HOLD "Insufficient data". */
  lemma InsufficientData(p: Params, bars: seq<Bar>, sqrt: real -> real)
    requires |bars| < MinimumBars(p)
    ensures Analyze(p, bars, sqrt) == Success(HoldSignal(MeanReversion, "Insufficient data"))
  {
  }

  /** The analyzer throws exactly when the window is long enough and the mean price is zero. */
  lemma FailsIff(p: Params, bars: seq<Bar>, sqrt: real -> real)
    ensures Analyze(p, bars, sqrt).Failure? <==> |bars| >= MinimumBars(p) && MeanPrice(p, bars) == 0.0
  {
  }

  /**
    A BUY or SELL comes only from a long enough window whose range is within the
    5–15% band and whose current volume is below the 20-bar average; it is the
    band signal of the current close against the Bollinger bands of all closes.
   */
  lemma TradesOnlyInQuietRange(p: Params, bars: seq<Bar>, sqrt: real -> real)
    requires Analyze(p, bars, sqrt).Success? && Analyze(p, bars, sqrt).value.kind != Hold
    ensures |bars| >= MinimumBars(p) && MeanPrice(p, bars) != 0.0
    ensures InRange(RangePercent(p, bars))
    ensures bars[|bars| - 1].volume < AverageVolume20(bars)
    ensures Analyze(p, bars, sqrt).value == BandSignal(bars[|bars| - 1].close,
      CurrentBands(p, bars, sqrt), true, RangeHigh(p, bars), RangeLow(p, bars))
  {
  }

  /**
    SELL exactly when the price reaches the upper band on low volume; BUY exactly
    when it does not but reaches the lower band on low volume. When the bands meet
    at the price, SELL wins.
   */
  lemma BandSignalCases(price: real, bands: Bands, lowVolume: bool, rangeHigh: real, rangeLow: real)
    ensures var s := BandSignal(price, bands, lowVolume, rangeHigh, rangeLow);
      && (s.kind == Sell <==> price >= bands.upper && lowVolume)
      && (s.kind == Buy <==> !(price >= bands.upper) && price <= bands.lower && lowVolume)
      && (s.kind == Sell ==> s == SellSignal(price, rangeHigh, bands.middle))
      && (s.kind == Buy ==> s == BuySignal(price, rangeLow, bands.middle))
      && (!lowVolume ==> s.kind == Hold)
  {
  }

  /**
    The close of a well-formed last bar lies inside the range of the last
    rangePeriod bars, and the range low is non-negative when every low is.
   */
  lemma RangeContainsClose(p: Params, bars: seq<Bar>)
    requires |bars| >= MinimumBars(p)
    requires WellFormedBar(bars[|bars| - 1])
    ensures RangeLow(p, bars) <= bars[|bars| - 1].close <= RangeHigh(p, bars)
    ensures (forall i :: 0 <= i < |bars| ==> bars[i].low >= 0.0) ==> RangeLow(p, bars) >= 0.0
  {
    WindowContainsClose(p.rangePeriod, bars);
  }

  /** The same, for a window of `period` bars given as a number. */
  lemma WindowContainsClose(period: Period, bars: seq<Bar>)
    requires |bars| >= period
    requires WellFormedBar(bars[|bars| - 1])
    ensures MinOrZero(Lows(Last(bars, period))) <= bars[|bars| - 1].close <= MaxOrZero(Highs(Last(bars, period)))
    ensures (forall i :: 0 <= i < |bars| ==> bars[i].low >= 0.0) ==> MinOrZero(Lows(Last(bars, period))) >= 0.0
  {
    var n := |bars|;
    var w := Last(bars, period);
    var highs := Highs(w);
    var lows := Lows(w);
    assert highs[|w| - 1] == bars[n - 1].high;
    assert lows[|w| - 1] == bars[n - 1].low;
    if forall i :: 0 <= i < |bars| ==> bars[i].low >= 0.0 {
      var i :| 0 <= i < |lows| && MinOrZero(lows) == lows[i];
      assert lows[i] == bars[n - |w| + i].low;
    }
  }

  /**
    With ordered bands and a price inside a non-negative range, a SELL has its
    target at or below the price and its stop at or above it, and a BUY the reverse.
   */
  lemma BandSignalLevels(price: real, bands: Bands, lowVolume: bool, rangeHigh: real, rangeLow: real)
    requires bands.upper >= bands.middle >= bands.lower
    requires 0.0 <= rangeLow <= price <= rangeHigh
    ensures var s := BandSignal(price, bands, lowVolume, rangeHigh, rangeLow);
      s.kind != Hold ==> s.price.Some? && s.stopLoss.Some? && s.takeProfit.Some?
    ensures var s := BandSignal(price, bands, lowVolume, rangeHigh, rangeLow);
      s.kind == Sell ==> s.takeProfit.value <= s.price.value <= s.stopLoss.value
    ensures var s := BandSignal(price, bands, lowVolume, rangeHigh, rangeLow);
      s.kind == Buy ==> s.stopLoss.value <= s.price.value <= s.takeProfit.value
  {
  }

  /**
    On a well-formed last bar with non-negative lows, and with bands that open
    upward (a non-negative square root and band width), every BUY or SELL the
    analyzer emits has its stop and its target on opposite sides of the price.
   */
  lemma ProtectiveLevels(p: Params, bars: seq<Bar>, sqrt: real -> real)
    requires Analyze(p, bars, sqrt).Success? && Analyze(p, bars, sqrt).value.kind != Hold
    requires WellFormedBar(bars[|bars| - 1]) && forall i :: 0 <= i < |bars| ==> bars[i].low >= 0.0
    requires (forall v :: 0.0 <= v ==> 0.0 <= sqrt(v)) && p.bollingerStd >= 0.0
    ensures var s := Analyze(p, bars, sqrt).value;
      s.price.Some? && s.stopLoss.Some? && s.takeProfit.Some? &&
      (s.kind == Sell ==> s.takeProfit.value <= s.price.value <= s.stopLoss.value) &&
      (s.kind == Buy ==> s.stopLoss.value <= s.price.value <= s.takeProfit.value)
  {
    TradesOnlyInQuietRange(p, bars, sqrt);
    RangeContainsClose(p, bars);
    BandsShape(Closes(bars), p.bollingerPeriod, p.bollingerStd, sqrt);
    BandSignalLevels(bars[|bars| - 1].close, CurrentBands(p, bars, sqrt), true,
      RangeHigh(p, bars), RangeLow(p, bars));
  }
}
