/**
  VolatilityBreakoutStrategy: when the current ATR is below a percentile of the
  ATRs of all earlier windows (volatility is compressed), buy a close above the
  14-bar high on strong volume.
 */
module VolatilityBreakout {
  import opened Wrappers
  import opened Decimal
  import opened Series
  import opened Domain
  import opened Indicators
  import opened Sorting
  import opened StrategyCommon

  /** The `trading.strategies.volatility-breakout.*` settings. */
  datatype Params = Params(
    atrPeriod: Period,
    compressionPercentile: real,
    volumeMultiplier: real,
    rewardRiskRatio: real)


  const MinimumBars: nat := 50
  const ConsolidationBars: nat := 14

  /**
    `f` applied to every run of `width` consecutive elements that ends before the
    last element, oldest first.
   */
  function MapWindows<T, U>(s: seq<T>, width: nat, f: seq<T> -> U): (r: seq<U>)
    ensures |r| == if |s| <= width then 0 else |s| - width
  {
    if |s| <= width then []
    else MapWindows(s[..|s| - 1], width, f) + [f(s[|s| - 1 - width..|s| - 1])]
  }

  /** Element j of MapWindows is `f` of the window starting at j. */
  lemma {:induction false} MapWindowsAt<T, U>(s: seq<T>, width: nat, f: seq<T> -> U, j: nat)
    requires j < |MapWindows(s, width, f)|
    ensures j + width < |s|
    ensures MapWindows(s, width, f)[j] == f(s[j..j + width])
  {
    var front := s[..|s| - 1];
    if j < |MapWindows(front, width, f)| {
      MapWindowsAt(front, width, f, j);
      assert s[j..j + width] == front[j..j + width];
    }
  }

  /** Taking one more element adds the window that ends just before it. */
  lemma MapWindowsStep<T, U>(s: seq<T>, width: nat, f: seq<T> -> U, i: nat)
    requires width <= i < |s|
    ensures MapWindows(s[..i + 1], width, f) == MapWindows(s[..i], width, f) + [f(s[i - width..i])]
  {
    assert s[..i + 1][..i] == s[..i];
    assert s[..i + 1][i - width..i] == s[i - width..i];
  }

  /** The ATR of a window, zero where there are too few bars for one. */
  function WindowAtr(window: seq<Bar>, period: nat): real {
    if period >= 1 && |window| >= period + 1 then Atr(window, period).value else 0.0
  }

  function AtrOfWindow(period: nat): seq<Bar> -> real {
    w => WindowAtr(w, period)
  }

  /**
    The ATR of every window bars[i − period − 1 .. i) for i from period + 1 up to
    (not including) the last index, oldest first.
   */
  function HistoricalAtrs(bars: seq<Bar>, period: nat): (r: seq<real>)
    requires period >= 1
    ensures |r| == if |bars| <= period + 1 then 0 else |bars| - period - 1
  {
    MapWindows(bars, period + 1, AtrOfWindow(period))
  }

  /** Every historical window has period + 1 bars, so its ATR is never null. */
  lemma WindowAtrIsAtr(window: seq<Bar>, period: nat)
    requires period >= 1 && |window| == period + 1
    ensures Atr(window, period) == Some(WindowAtr(window, period))
  {
  }

  /** `f` computes the ATR of every window (stated so that only an explicit ATR term instantiates it). */
  ghost predicate AgreesWithAtr(f: seq<Bar> -> real, period: nat) {
    forall w {:trigger WindowAtr(w, period)} :: f(w) == WindowAtr(w, period)
  }

  /** calculateATR on one window, whose result is never null. */
  method WindowAtrOf(window: seq<Bar>, period: nat, f: seq<Bar> -> real) returns (atr: Option<real>)
    requires period >= 1 && |window| == period + 1 && AgreesWithAtr(f, period)
    ensures atr == Some(f(window))
  {
    atr := CalculateAtr(window, period);
    assert atr.value == WindowAtr(window, period);
  }

  /**
    The loop of analyze that collects the historical ATRs, skipping null ones,
    proved for any per-window function that agrees with the ATR.
   */
  method CollectWindowAtrs(bars: seq<Bar>, period: nat, f: seq<Bar> -> real) returns (atrs: seq<real>)
    requires period >= 1 && AgreesWithAtr(f, period)
    ensures atrs == MapWindows(bars, period + 1, f)
  {
    atrs := [];
    if |bars| <= period + 1 {
      return;
    }
    var i := period + 1;
    while i < |bars|
      invariant period + 1 <= i <= |bars|
      invariant atrs == MapWindows(bars[..i], period + 1, f)
    {
      var atr := WindowAtrOf(bars[i - (period + 1)..i], period, f);
      MapWindowsStep(bars, period + 1, f, i);
      if atr.Some? {
        atrs := atrs + [atr.value];
      }
      i := i + 1;
    }
    assert bars[..i] == bars;
  }

  method CollectHistoricalAtrs(bars: seq<Bar>, period: nat) returns (atrs: seq<real>)
    requires period >= 1
    ensures atrs == HistoricalAtrs(bars, period)
  {
    atrs := CollectWindowAtrs(bars, period, AtrOfWindow(period));
  }

  /** `(int) (size * percentile)`: the exact product truncated toward zero; the `double` rounding of the product is not modelled. */
  function PercentileIndex(size: nat, percentile: real): int {
    var x := (size as real) * percentile;
    if x >= 0.0 then x.Floor else -((-x).Floor)
  }

  /** The compression threshold, or None where `historicalATRs.get` is out of bounds. */
  function CompressionThreshold(p: Params, bars: seq<Bar>): (r: Option<real>)
  {
    var sorted := SortBy(HistoricalAtrs(bars, p.atrPeriod), x => x);
    var index := PercentileIndex(|sorted|, p.compressionPercentile);
    if 0 <= index < |sorted| then Some(sorted[index]) else None
  }

  function ConsolidationHigh(bars: seq<Bar>): real {
    MaxOrZero(Highs(Last(bars, ConsolidationBars)))
  }

  function ConsolidationLow(bars: seq<Bar>): real {
    MinOrZero(Lows(Last(bars, ConsolidationBars)))
  }

  /**
    The ATR of the sub-list of the last atrPeriod + 1 bars, as the analyzer computes it;
    by CurrentAtrIsAtr it is the ATR of the whole window.
   */
  function CurrentAtr(period: Period, bars: seq<Bar>): real
    requires |bars| >= period + 1
  {
    Atr(bars[|bars| - period - 1..], period).value
  }

  /** The close is above the consolidation high and volume exceeds the average times the multiplier. */
  predicate BreakoutConditions(p: Params, bars: seq<Bar>)
    requires |bars| >= 1
  {
    var current := bars[|bars| - 1];
    current.close > ConsolidationHigh(bars) && current.volume > AverageVolume20(bars) * p.volumeMultiplier
  }

  /** The BUY at `price`: stop at the consolidation low, target `rewardRiskRatio` risks above. */
  function BuySignal(price: real, low: real, rewardRiskRatio: real): Signal {
    Signal(Buy, VolatilityBreakout, Some(price), Some(low),
      Some(price + (price - low) * rewardRiskRatio),
      Some(0.80), "Volatility compression breakout with volume")
  }

  /**
    analyze. A window shorter than atrPeriod + 1 makes the current-ATR sub-list
    start below zero, and a percentile index outside the historical list makes
    `get` fail: both throw IndexOutOfBoundsException.
   */
  function Analyze(p: Params, bars: seq<Bar>): (r: Result<Signal, Fault>)
    ensures r.Success? ==> r.value.strategy == VolatilityBreakout && r.value.kind != Sell
    ensures r.Failure? ==> r.error == IndexOutOfBounds
  {
    var n := |bars|;
    if n < MinimumBars then Success(HoldSignal(VolatilityBreakout, "Insufficient data"))
    else if n < p.atrPeriod + 1 then Failure(IndexOutOfBounds)
    else
      match CompressionThreshold(p, bars)
      case None => Failure(IndexOutOfBounds)
      case Some(threshold) => Success(Judge(p, bars, threshold))
  }

  /** The last step of analyze: BUY on compressed volatility and a breakout, HOLD otherwise. */
  function Judge(p: Params, bars: seq<Bar>, threshold: real): (s: Signal)
    requires |bars| >= p.atrPeriod + 1
    ensures s.strategy == VolatilityBreakout && s.kind != Sell
  {
    if CurrentAtr(p.atrPeriod, bars) < threshold && BreakoutConditions(p, bars) then
      BuySignal(bars[|bars| - 1].close, ConsolidationLow(bars), p.rewardRiskRatio)
    else HoldSignal(VolatilityBreakout, "No volatility breakout")
  }

  /** Fewer than 50 bars give HOLD "Insufficient data". */
  lemma InsufficientData(p: Params, bars: seq<Bar>)
    requires |bars| < MinimumBars
    ensures Analyze(p, bars) == Success(HoldSignal(VolatilityBreakout, "Insufficient data"))
  {
  }

  /** The truncated exact product is within a list of `size` elements exactly when −1 < size·percentile < size. */
  lemma PercentileIndexInBounds(size: nat, percentile: real)
    requires size >= 1
    ensures 0 <= PercentileIndex(size, percentile) < size <==>
      -1.0 < (size as real) * percentile < size as real
  {
  }

  /** In particular every percentile in [0, 1) selects an element of a non-empty list. */
  lemma PercentileInUnitInterval(size: nat, percentile: real)
    requires size >= 1 && 0.0 <= percentile < 1.0
    ensures 0 <= PercentileIndex(size, percentile) < size
  {
    var x := (size as real) * percentile;
    assert x < size as real by {
      assert (size as real) - x == (size as real) * (1.0 - percentile);
      ProductNonNegative(1.0, percentile, size as real);
      assert (size as real) * (1.0 - percentile) > 0.0 by {
        assert (size as real) * (1.0 - percentile) >= 0.0;
        if (size as real) * (1.0 - percentile) == 0.0 {
          assert size as real > 0.0 && 1.0 - percentile > 0.0;
        }
      }
    }
    ProductNonNegative(percentile, 0.0, size as real);
    PercentileIndexInBounds(size, percentile);
  }

  /**
    The threshold is one of the historical ATRs, with every ATR before its position
    in sorted order no larger and every one after it no smaller.
   */
  lemma ThresholdIsOrderStatistic(p: Params, bars: seq<Bar>)
    requires CompressionThreshold(p, bars).Some?
    ensures var h := HistoricalAtrs(bars, p.atrPeriod);
      var sorted := SortBy(h, x => x);
      var index := PercentileIndex(|h|, p.compressionPercentile);
      var t := CompressionThreshold(p, bars).value;
      && 0 <= index < |h|
      && t in multiset(h)
      && (forall i :: 0 <= i < index ==> sorted[i] <= t)
      && (forall i :: index < i < |h| ==> t <= sorted[i])
  {
    var h := HistoricalAtrs(bars, p.atrPeriod);
    var sorted := SortBy(h, x => x);
    var index := PercentileIndex(|h|, p.compressionPercentile);
    assert sorted[index] in multiset(sorted);
  }

  /** The analyzer fails exactly when the window is long enough but an index is out of range. */
  lemma FailsIff(p: Params, bars: seq<Bar>)
    ensures Analyze(p, bars).Failure? <==>
      |bars| >= MinimumBars && (|bars| < p.atrPeriod + 1 || CompressionThreshold(p, bars).None?)
  {
  }

  /** With atrPeriod + 1 = |bars| there is no earlier window, so every long enough window fails. */
  lemma NoHistoryFails(p: Params, bars: seq<Bar>)
    requires |bars| >= MinimumBars && |bars| == p.atrPeriod + 1
    ensures Analyze(p, bars) == Failure(IndexOutOfBounds)
  {
    assert HistoricalAtrs(bars, p.atrPeriod) == [];
  }

  /**
    A BUY is emitted exactly when volatility is compressed (current ATR strictly below
    the threshold) and the breakout conditions hold.
   */
  lemma BuyIff(p: Params, bars: seq<Bar>)
    requires Analyze(p, bars).Success?
    ensures Analyze(p, bars).value.kind == Buy <==>
      && |bars| >= MinimumBars
      && CompressionThreshold(p, bars).Some?
      && |bars| >= p.atrPeriod + 1
      && CurrentAtr(p.atrPeriod, bars) < CompressionThreshold(p, bars).value
      && BreakoutConditions(p, bars)
  {
    if Analyze(p, bars).value.kind == Buy {
      BuyFacts(p, bars);
    }
    if |bars| >= MinimumBars && CompressionThreshold(p, bars).Some? {
      if |bars| >= p.atrPeriod + 1 && CurrentAtr(p.atrPeriod, bars) < CompressionThreshold(p, bars).value && BreakoutConditions(p, bars) {
        ConditionsGiveBuy(p, bars);
      }
    }
  }

  /** What a BUY result implies: a threshold exists, the current ATR is below it and the breakout holds. */
  lemma BuyFacts(p: Params, bars: seq<Bar>)
    requires Analyze(p, bars).Success? && Analyze(p, bars).value.kind == Buy
    ensures |bars| >= MinimumBars && |bars| >= p.atrPeriod + 1
    ensures CompressionThreshold(p, bars).Some?
    ensures CurrentAtr(p.atrPeriod, bars) < CompressionThreshold(p, bars).value
    ensures BreakoutConditions(p, bars)
  {
    assert |bars| >= MinimumBars;
    assert |bars| >= p.atrPeriod + 1;
  }

  /** Compressed volatility and a breakout give a BUY. */
  lemma ConditionsGiveBuy(p: Params, bars: seq<Bar>)
    requires |bars| >= MinimumBars && CompressionThreshold(p, bars).Some?
    requires |bars| >= p.atrPeriod + 1 && CurrentAtr(p.atrPeriod, bars) < CompressionThreshold(p, bars).value
    requires BreakoutConditions(p, bars)
    ensures Analyze(p, bars).Success? && Analyze(p, bars).value.kind == Buy
  {
    AnalyzeJudges(p, bars);
  }

  /** Past the guards and with a threshold, analyze returns the judgement against that threshold. */
  lemma AnalyzeJudges(p: Params, bars: seq<Bar>)
    requires |bars| >= MinimumBars && |bars| >= p.atrPeriod + 1 && CompressionThreshold(p, bars).Some?
    ensures Analyze(p, bars) == Success(Judge(p, bars, CompressionThreshold(p, bars).value))
  {
  }

  /** The sub-list ATR equals the ATR of the whole window. */
  lemma CurrentAtrIsAtr(period: Period, bars: seq<Bar>)
    requires |bars| >= period + 1
    ensures CurrentAtr(period, bars) == Atr(bars, period).value
  {
    AtrOfLastWindow(bars, period);
  }

  /** A BUY is priced at the close with the stop at the 14-bar low. */
  lemma BuyLevels(p: Params, bars: seq<Bar>)
    requires Analyze(p, bars).Success? && Analyze(p, bars).value.kind == Buy
    ensures |bars| >= MinimumBars
    ensures Analyze(p, bars).value == BuySignal(bars[|bars| - 1].close, ConsolidationLow(bars), p.rewardRiskRatio)
  {
  }

  /**
    The target lies rewardRiskRatio times the risk (price minus stop) above the
    price; the confidence is 0.80.
   */
  lemma BuySignalLevels(price: real, low: real, rewardRiskRatio: real)
    ensures var s := BuySignal(price, low, rewardRiskRatio);
      && s.kind == Buy && s.price == Some(price) && s.stopLoss == Some(low)
      && s.takeProfit.Some?
      && s.takeProfit.value - price == (price - low) * rewardRiskRatio
      && s.confidence == Some(0.80)
    ensures low <= price && rewardRiskRatio >= 0.0 ==>
      BuySignal(price, low, rewardRiskRatio).takeProfit.value >= price
  {
    if low <= price && rewardRiskRatio >= 0.0 {
      MulLe(0.0, price - low, rewardRiskRatio);
    }
  }

  /**
    The 14-bar high includes the current bar, so when that bar's close is not above
    its own high the breakout test fails and the analyzer never buys.
   */
  lemma NoBuyWhenCloseWithinHigh(p: Params, bars: seq<Bar>)
    requires Analyze(p, bars).Success?
    requires |bars| >= 1 && bars[|bars| - 1].close <= bars[|bars| - 1].high
    ensures Analyze(p, bars).value == HoldSignal(VolatilityBreakout,
      if |bars| < MinimumBars then "Insufficient data" else "No volatility breakout")
  {
    ConsolidationHighCoversLast(bars);
  }

  /** The consolidation window ends at the current bar, so its high is at least that bar's high. */
  lemma ConsolidationHighCoversLast(bars: seq<Bar>)
    requires |bars| >= 1
    ensures ConsolidationHigh(bars) >= bars[|bars| - 1].high
  {
    var w := Highs(Last(bars, ConsolidationBars));
    assert w[|w| - 1] == bars[|bars| - 1].high;
  }
}
