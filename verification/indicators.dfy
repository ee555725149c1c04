/**
  TechnicalIndicatorService: simple and exponential moving averages, average true
  range, Bollinger bands and the relative strength index. Each indicator is a
  specification function (None where the Java method returns null) and a loop
  method that computes it the way the service does.
 */
module Indicators {
  import opened Wrappers
  import opened Decimal
  import opened Series
  import opened Domain

  // ---------------------------------------------------------------- SMA

  /** calculateSMA: the mean of the last `period` values, rounded half-up to 8 places. */
  function Sma(prices: seq<real>, period: nat): (r: Option<real>)
    requires period >= 1
    ensures r.None? <==> |prices| < period
  {
    if |prices| < period then None
    else Some(DivHalfUp(Sum(Last(prices, period)), period as real, 8))
  }

  method CalculateSma(prices: seq<real>, period: nat) returns (r: Option<real>)
    requires period >= 1
    ensures r == Sma(prices, period)
  {
    if |prices| < period {
      return None;
    }
    var start := |prices| - period;
    var sum := 0.0;
    var i := start;
    while i < |prices|
      invariant start <= i <= |prices|
      invariant sum == Sum(prices[start..i])
    {
      assert prices[start..i + 1] == prices[start..i] + [prices[i]];
      SumAppend(prices[start..i], prices[i]);
      sum := sum + prices[i];
      i := i + 1;
    }
    assert prices[start..|prices|] == Last(prices, period);
    return Some(DivHalfUp(sum, period as real, 8));
  }

  /** Dividing a sum of n values within [lo, hi] by n gives a value within [lo, hi]. */
  lemma MeanBounds(s: seq<real>, lo: real, hi: real)
    requires |s| >= 1
    requires forall i :: 0 <= i < |s| ==> lo <= s[i] <= hi
    ensures lo <= Sum(s) / (|s| as real) <= hi
  {
    var n := |s| as real;
    SumBounds(s, lo, hi);
    DivLe(n * lo, Sum(s), n);
    DivLe(Sum(s), n * hi, n);
    assert (n * lo) / n == lo;
    assert (n * hi) / n == hi;
  }

  /**
    The SMA of values that all lie within [lo, hi] lies within [lo, hi], when the
    bounds themselves have at most 8 fractional digits.
   */
  lemma SmaWithin(prices: seq<real>, period: nat, lo: real, hi: real)
    requires period >= 1 && |prices| >= period
    requires forall i :: |prices| - period <= i < |prices| ==> lo <= prices[i] <= hi
    requires HasScale(lo, 8) && HasScale(hi, 8)
    ensures lo <= Sma(prices, period).value <= hi
  {
    var w := Last(prices, period);
    MeanBounds(w, lo, hi);
    RoundHalfUpBetween(Sum(w) / (period as real), lo, hi, 8);
  }

  /**
    The SMA of a window holding `period` copies of `c` is `c` rounded to 8 places,
    which is `c` itself when `c` has at most 8 fractional digits.
   */
  lemma SmaConstant(prices: seq<real>, period: nat, c: real)
    requires period >= 1 && |prices| >= period
    requires forall i :: |prices| - period <= i < |prices| ==> prices[i] == c
    ensures Sma(prices, period) == Some(RoundHalfUp(c, 8))
    ensures HasScale(c, 8) ==> Sma(prices, period) == Some(c)
  {
    var w := Last(prices, period);
    SumConstant(w, c);
    assert Sum(w) / (period as real) == c;
    if HasScale(c, 8) {
      RoundHalfUpExact(c, 8);
    }
  }

  /** Only the last `period` values matter to the SMA. */
  lemma SmaOfSuffix(prices: seq<real>, period: nat, k: nat)
    requires period >= 1 && period <= k <= |prices|
    ensures Sma(prices[|prices| - k..], period) == Sma(prices, period)
  {
    assert Last(prices[|prices| - k..], period) == Last(prices, period);
  }

  // ---------------------------------------------------------------- EMA

  /**
    The smoothing factor 2/(period+1). The source computes it in double precision
    before converting it to BigDecimal; here it is the exact fraction.
   */
  function Multiplier(period: nat): (k: real)
    requires period >= 1
    ensures 0.0 < k <= 1.0
  {
    var n := (period + 1) as real;
    DivLe(0.0, 2.0, n);
    DivLe(2.0, n, n);
    2.0 / n
  }

  /** The EMA after folding `rest` into `seed`, newest value weighted by `k`. */
  function EmaFold(seed: real, rest: seq<real>, k: real): real {
    if |rest| == 0 then seed
    else rest[|rest| - 1] * k + EmaFold(seed, rest[..|rest| - 1], k) * (1.0 - k)
  }

  /** calculateEMA: seeded with the SMA of the first `period` values. */
  function Ema(prices: seq<real>, period: nat): (r: Option<real>)
    requires period >= 1
    ensures r.None? <==> |prices| < period
  {
    if |prices| < period then None
    else Some(EmaFold(Sma(prices[..period], period).value, prices[period..], Multiplier(period)))
  }

  lemma EmaFoldAppend(seed: real, rest: seq<real>, x: real, k: real)
    ensures EmaFold(seed, rest + [x], k) == x * k + EmaFold(seed, rest, k) * (1.0 - k)
  {
    assert (rest + [x])[..|rest|] == rest;
  }

  method CalculateEma(prices: seq<real>, period: nat) returns (r: Option<real>)
    requires period >= 1
    ensures r == Ema(prices, period)
  {
    if |prices| < period {
      return None;
    }
    var seed := CalculateSma(prices[..period], period);
    var ema := FoldEma(seed.value, prices[period..], Multiplier(period));
    return Some(ema);
  }

  /** The loop of calculateEMA: each later price is blended into the running value. */
  method FoldEma(seed: real, rest: seq<real>, k: real) returns (ema: real)
    ensures ema == EmaFold(seed, rest, k)
  {
    ema := seed;
    var i := 0;
    while i < |rest|
      invariant 0 <= i <= |rest|
      invariant ema == EmaFold(seed, rest[..i], k)
    {
      assert rest[..i + 1] == rest[..i] + [rest[i]];
      EmaFoldAppend(seed, rest[..i], rest[i], k);
      ema := rest[i] * k + ema * (1.0 - k);
      i := i + 1;
    }
    assert rest[..i] == rest;
  }

  lemma ProductNonNegative(a: real, lo: real, k: real)
    requires lo <= a && 0.0 <= k
    ensures (a - lo) * k >= 0.0
  {
  }

  lemma WeightedWithin(a: real, b: real, k: real, j: real, lo: real, hi: real)
    requires lo <= a <= hi && lo <= b <= hi && 0.0 <= k && 0.0 <= j && k + j == 1.0
    ensures lo <= a * k + b * j <= hi
  {
    ProductNonNegative(a, lo, k);
    ProductNonNegative(b, lo, j);
    ProductNonNegative(hi, a, k);
    ProductNonNegative(hi, b, j);
    assert (a - lo) * k == a * k - lo * k;
    assert (b - lo) * j == b * j - lo * j;
    assert (hi - a) * k == hi * k - a * k;
    assert (hi - b) * j == hi * j - b * j;
    assert lo * k + lo * j == lo;
    assert hi * k + hi * j == hi;
  }

  /** A weighted average of two values within [lo, hi] stays within [lo, hi]. */
  lemma BlendWithin(a: real, b: real, k: real, lo: real, hi: real)
    requires lo <= a <= hi && lo <= b <= hi && 0.0 <= k <= 1.0
    ensures lo <= a * k + b * (1.0 - k) <= hi
  {
    WeightedWithin(a, b, k, 1.0 - k, lo, hi);
  }

  lemma {:induction false} EmaFoldWithin(seed: real, rest: seq<real>, k: real, lo: real, hi: real)
    requires lo <= seed <= hi && 0.0 <= k <= 1.0
    requires forall i :: 0 <= i < |rest| ==> lo <= rest[i] <= hi
    ensures lo <= EmaFold(seed, rest, k) <= hi
    decreases |rest|
  {
    if |rest| > 0 {
      EmaFoldWithin(seed, rest[..|rest| - 1], k, lo, hi);
      BlendWithin(rest[|rest| - 1], EmaFold(seed, rest[..|rest| - 1], k), k, lo, hi);
    }
  }

  /**
    The EMA of values that all lie within [lo, hi] lies within [lo, hi] (bounds with
    at most 8 fractional digits, as the seed is rounded to 8 places).
   */
  lemma EmaWithin(prices: seq<real>, period: nat, lo: real, hi: real)
    requires period >= 1 && |prices| >= period
    requires forall i :: 0 <= i < |prices| ==> lo <= prices[i] <= hi
    requires HasScale(lo, 8) && HasScale(hi, 8)
    ensures lo <= Ema(prices, period).value <= hi
  {
    SmaWithin(prices[..period], period, lo, hi);
    EmaFoldWithin(Sma(prices[..period], period).value, prices[period..], Multiplier(period), lo, hi);
  }

  /** A constant series (with at most 8 fractional digits) has that constant as its EMA. */
  lemma EmaConstant(prices: seq<real>, period: nat, c: real)
    requires period >= 1 && |prices| >= period
    requires forall i :: 0 <= i < |prices| ==> prices[i] == c
    requires HasScale(c, 8)
    ensures Ema(prices, period) == Some(c)
  {
    EmaWithin(prices, period, c, c);
  }

  // ---------------------------------------------------------------- ATR

  /** max(high − low, |high − prevClose|, |low − prevClose|). */
  function TrueRange(prevClose: real, b: Bar): (r: real)
    ensures r >= b.high - b.low && r >= Abs(b.high - prevClose) && r >= Abs(b.low - prevClose)
    ensures r == b.high - b.low || r == Abs(b.high - prevClose) || r == Abs(b.low - prevClose)
    ensures r >= 0.0
  {
    Max(Max(b.high - b.low, Abs(b.high - prevClose)), Abs(b.low - prevClose))
  }

  /** The true range of every candle after the first, against its predecessor's close. */
  function TrueRanges(bars: seq<Bar>): (r: seq<real>)
    ensures |r| == if |bars| == 0 then 0 else |bars| - 1
    ensures forall i :: 0 <= i < |r| ==> r[i] >= 0.0
  {
    if |bars| == 0 then []
    else seq(|bars| - 1, i requires 0 <= i < |bars| - 1 => TrueRange(bars[i].close, bars[i + 1]))
  }

  /** calculateATR: the SMA of the true ranges. */
  function Atr(bars: seq<Bar>, period: nat): (r: Option<real>)
    requires period >= 1
    ensures r.None? <==> |bars| < period + 1
  {
    if |bars| < period + 1 then None else Sma(TrueRanges(bars), period)
  }

  method CalculateAtr(bars: seq<Bar>, period: nat) returns (r: Option<real>)
    requires period >= 1
    ensures r == Atr(bars, period)
  {
    if |bars| < period + 1 {
      return None;
    }
    var trueRanges: seq<real> := [];
    var i := 1;
    while i < |bars|
      invariant 1 <= i <= |bars|
      invariant |trueRanges| == i - 1
      invariant forall j :: 0 <= j < i - 1 ==> trueRanges[j] == TrueRange(bars[j].close, bars[j + 1])
    {
      var high := bars[i].high;
      var low := bars[i].low;
      var prevClose := bars[i - 1].close;
      var tr1 := high - low;
      var tr2 := Abs(high - prevClose);
      var tr3 := Abs(low - prevClose);
      trueRanges := trueRanges + [Max(Max(tr1, tr2), tr3)];
      i := i + 1;
    }
    assert trueRanges == TrueRanges(bars);
    r := CalculateSma(trueRanges, period);
  }

  /** The ATR is never negative. */
  lemma AtrNonNegative(bars: seq<Bar>, period: nat)
    requires period >= 1 && |bars| >= period + 1
    ensures Atr(bars, period).value >= 0.0
  {
    var w := Last(TrueRanges(bars), period);
    LastNonNegative(TrueRanges(bars), period);
    SumNonNegative(w);
    DivLe(0.0, Sum(w), period as real);
    RoundHalfUpNonNegative(Sum(w) / (period as real), 8);
  }

  /** The ATR depends only on the last period + 1 candles. */
  lemma AtrOfLastWindow(bars: seq<Bar>, period: nat)
    requires period >= 1 && |bars| >= period + 1
    ensures Atr(bars[|bars| - period - 1..], period) == Atr(bars, period)
  {
    var w := bars[|bars| - period - 1..];
    assert Last(TrueRanges(w), period) == Last(TrueRanges(bars), period);
  }

  // ---------------------------------------------------------------- Bollinger bands

  datatype Bands = Bands(upper: real, middle: real, lower: real)

  /** Bands `std·stdDev` above and below `middle`. */
  function BandsAround(middle: real, std: real, stdDev: real): Bands {
    Bands(middle + std * stdDev, middle, middle - std * stdDev)
  }

  /** Σ (p − mean)² over `s`. */
  function SquaredDeviation(s: seq<real>, mean: real): real {
    if |s| == 0 then 0.0
    else SquaredDeviation(s[..|s| - 1], mean) + (s[|s| - 1] - mean) * (s[|s| - 1] - mean)
  }

  lemma SquaredDeviationAppend(s: seq<real>, x: real, mean: real)
    ensures SquaredDeviation(s + [x], mean) == SquaredDeviation(s, mean) + (x - mean) * (x - mean)
  {
    assert (s + [x])[..|s|] == s;
  }

  lemma {:induction false} SquaredDeviationNonNegative(s: seq<real>, mean: real)
    ensures SquaredDeviation(s, mean) >= 0.0
    decreases |s|
  {
    if |s| > 0 {
      SquaredDeviationNonNegative(s[..|s| - 1], mean);
      var d := s[|s| - 1] - mean;
      assert d * d >= 0.0 by {
        if d < 0.0 {
          assert d * d == (-d) * (-d);
        }
      }
    }
  }

  /**
    calculateBollingerBands: middle is the SMA, and the bands lie `stdDev` standard
    deviations above and below. `sqrt` stands for Math.sqrt on the rounded variance.
   */
  function BollingerBands(prices: seq<real>, period: nat, stdDev: real, sqrt: real -> real): (r: Option<Bands>)
    requires period >= 1
    ensures r.None? <==> |prices| < period
  {
    if |prices| < period then None
    else
      var sma := Sma(prices, period).value;
      var variance := SquaredDeviation(Last(prices, period), sma);
      var std := sqrt(DivHalfUp(variance, period as real, 8));
      Some(BandsAround(sma, std, stdDev))
  }

  method SumSquaredDeviations(values: seq<real>, mean: real) returns (variance: real)
    ensures variance == SquaredDeviation(values, mean)
  {
    variance := 0.0;
    var i := 0;
    while i < |values|
      invariant 0 <= i <= |values|
      invariant variance == SquaredDeviation(values[..i], mean)
    {
      assert values[..i + 1] == values[..i] + [values[i]];
      SquaredDeviationAppend(values[..i], values[i], mean);
      var diff := values[i] - mean;
      variance := variance + diff * diff;
      i := i + 1;
    }
    assert values[..|values|] == values;
  }

  method CalculateBollingerBands(prices: seq<real>, period: nat, stdDev: real, sqrt: real -> real)
    returns (r: Option<Bands>)
    requires period >= 1
    ensures r == BollingerBands(prices, period, stdDev, sqrt)
  {
    if |prices| < period {
      return None;
    }
    var smaOpt := CalculateSma(prices, period);
    var sma := smaOpt.value;
    var variance := SumSquaredDeviations(prices[|prices| - period..], sma);
    assert prices[|prices| - period..] == Last(prices, period);
    var std := sqrt(DivHalfUp(variance, period as real, 8));
    return Some(BandsAround(sma, std, stdDev));
  }

  /**
    The middle band is the SMA, the bands are symmetric around it, and with a
    non-negative square root and width the upper band is above the lower one.
   */
  lemma BandsShape(prices: seq<real>, period: nat, stdDev: real, sqrt: real -> real)
    requires period >= 1 && |prices| >= period
    ensures var b := BollingerBands(prices, period, stdDev, sqrt).value;
      b.middle == Sma(prices, period).value && b.upper - b.middle == b.middle - b.lower
    ensures (forall v :: 0.0 <= v ==> 0.0 <= sqrt(v)) && stdDev >= 0.0 ==>
      var b := BollingerBands(prices, period, stdDev, sqrt).value;
      b.upper >= b.middle >= b.lower
  {
    var sma := Sma(prices, period).value;
    var variance := SquaredDeviation(Last(prices, period), sma);
    SquaredDeviationNonNegative(Last(prices, period), sma);
    DivLe(0.0, variance, period as real);
    RoundHalfUpNonNegative(variance / (period as real), 8);
    var std := sqrt(DivHalfUp(variance, period as real, 8));
    if (forall v :: 0.0 <= v ==> 0.0 <= sqrt(v)) && stdDev >= 0.0 {
      assert std >= 0.0;
      MulLe(0.0, std, stdDev);
    }
  }

  // ---------------------------------------------------------------- RSI

  /** What a price change adds to the gains: the change when it is positive. */
  function Gain(change: real): real {
    if change > 0.0 then change else 0.0
  }

  /** What a price change adds to the losses: its magnitude when it is not positive. */
  function Loss(change: real): real {
    if change > 0.0 then 0.0 else Abs(change)
  }

  /** Sum of the gains of the changes prices[i] − prices[i−1] for i in 1..n. */
  function GainTotal(prices: seq<real>, n: nat): (r: real)
    requires n < |prices|
    ensures r >= 0.0
  {
    if n == 0 then 0.0 else GainTotal(prices, n - 1) + Gain(prices[n] - prices[n - 1])
  }

  /** Sum of the losses of the changes prices[i] − prices[i−1] for i in 1..n. */
  function LossTotal(prices: seq<real>, n: nat): (r: real)
    requires n < |prices|
    ensures r >= 0.0
  {
    if n == 0 then 0.0 else LossTotal(prices, n - 1) + Loss(prices[n] - prices[n - 1])
  }

  /** calculateRSI over the first `period` changes. */
  function Rsi(prices: seq<real>, period: nat): (r: Option<real>)
    requires period >= 1
    ensures r.None? <==> |prices| < period + 1
  {
    if |prices| < period + 1 then None
    else
      var avgGain := DivHalfUp(GainTotal(prices, period), period as real, 8);
      var avgLoss := DivHalfUp(LossTotal(prices, period), period as real, 8);
      if avgLoss == 0.0 then Some(100.0)
      else
        var rs := DivHalfUp(avgGain, avgLoss, 8);
        RsiDivisorPositive(GainTotal(prices, period), LossTotal(prices, period), period);
        Some(100.0 - DivHalfUp(100.0, 1.0 + rs, 8))
  }

  /** The averages are non-negative, so 1 + RS is at least 1. */
  lemma RsiDivisorPositive(gains: real, losses: real, period: nat)
    requires period >= 1 && gains >= 0.0 && losses >= 0.0
    requires DivHalfUp(losses, period as real, 8) != 0.0
    ensures DivHalfUp(losses, period as real, 8) > 0.0
    ensures DivHalfUp(DivHalfUp(gains, period as real, 8), DivHalfUp(losses, period as real, 8), 8) >= 0.0
  {
    DivLe(0.0, gains, period as real);
    DivLe(0.0, losses, period as real);
    RoundHalfUpNonNegative(gains / (period as real), 8);
    RoundHalfUpNonNegative(losses / (period as real), 8);
    var g := DivHalfUp(gains, period as real, 8);
    var l := DivHalfUp(losses, period as real, 8);
    DivLe(0.0, g, l);
    RoundHalfUpNonNegative(g / l, 8);
  }

  method CalculateRsi(prices: seq<real>, period: nat) returns (r: Option<real>)
    requires period >= 1
    ensures r == Rsi(prices, period)
  {
    if |prices| < period + 1 {
      return None;
    }
    var avgGain := 0.0;
    var avgLoss := 0.0;
    var i := 1;
    while i <= period
      invariant 1 <= i <= period + 1
      invariant avgGain == GainTotal(prices, i - 1)
      invariant avgLoss == LossTotal(prices, i - 1)
    {
      var change := prices[i] - prices[i - 1];
      if change > 0.0 {
        avgGain := avgGain + change;
      } else {
        avgLoss := avgLoss + Abs(change);
      }
      i := i + 1;
    }
    avgGain := DivHalfUp(avgGain, period as real, 8);
    avgLoss := DivHalfUp(avgLoss, period as real, 8);
    if avgLoss == 0.0 {
      return Some(100.0);
    }
    RsiDivisorPositive(GainTotal(prices, period), LossTotal(prices, period), period);
    var rs := DivHalfUp(avgGain, avgLoss, 8);
    return Some(100.0 - DivHalfUp(100.0, 1.0 + rs, 8));
  }

  /** The RSI lies between 0 and 100. */
  lemma RsiRange(prices: seq<real>, period: nat)
    requires period >= 1 && |prices| >= period + 1
    ensures 0.0 <= Rsi(prices, period).value <= 100.0
  {
    var avgGain := DivHalfUp(GainTotal(prices, period), period as real, 8);
    var avgLoss := DivHalfUp(LossTotal(prices, period), period as real, 8);
    if avgLoss != 0.0 {
      RsiDivisorPositive(GainTotal(prices, period), LossTotal(prices, period), period);
      var rs := DivHalfUp(avgGain, avgLoss, 8);
      var q := 100.0 / (1.0 + rs);
      DivLe(0.0, 100.0, 1.0 + rs);
      assert q <= 100.0 by {
        MulLe(1.0, 1.0 + rs, q);
        assert q * (1.0 + rs) == 100.0;
      }
      HasScaleInteger(0, 8);
      HasScaleInteger(100, 8);
      RoundHalfUpBetween(q, 0.0, 100.0, 8);
    }
  }

  lemma {:induction false} GainTotalOfPrefix(prices: seq<real>, n: nat, m: nat)
    requires n < m <= |prices|
    ensures GainTotal(prices[..m], n) == GainTotal(prices, n)
    ensures LossTotal(prices[..m], n) == LossTotal(prices, n)
    decreases n
  {
    if n > 0 {
      GainTotalOfPrefix(prices, n - 1, m);
    }
  }

  /** Only the first period + 1 prices (the first `period` changes) matter to the RSI. */
  lemma RsiUsesFirstChanges(prices: seq<real>, period: nat)
    requires period >= 1 && |prices| >= period + 1
    ensures Rsi(prices[..period + 1], period) == Rsi(prices, period)
  {
    GainTotalOfPrefix(prices, period, period + 1);
  }

  lemma {:induction false} NoLossWhenRising(prices: seq<real>, n: nat)
    requires n < |prices|
    requires forall i :: 1 <= i <= n ==> prices[i] > prices[i - 1]
    ensures LossTotal(prices, n) == 0.0
    decreases n
  {
    if n > 0 {
      NoLossWhenRising(prices, n - 1);
    }
  }

  lemma {:induction false} NoGainWhenFalling(prices: seq<real>, n: nat)
    requires n < |prices|
    requires forall i :: 1 <= i <= n ==> prices[i] <= prices[i - 1]
    ensures GainTotal(prices, n) == 0.0
    decreases n
  {
    if n > 0 {
      NoGainWhenFalling(prices, n - 1);
    }
  }

  /** Strictly rising first changes give an RSI of exactly 100. */
  lemma RsiAllRising(prices: seq<real>, period: nat)
    requires period >= 1 && |prices| >= period + 1
    requires forall i :: 1 <= i <= period ==> prices[i] > prices[i - 1]
    ensures Rsi(prices, period) == Some(100.0)
  {
    NoLossWhenRising(prices, period);
    HasScaleInteger(0, 8);
    RoundHalfUpExact(0.0, 8);
  }

  /**
    First changes that never rise give 0 when some price falls; a completely flat
    window has no loss either and is reported as 100.
   */
  lemma RsiNoneRising(prices: seq<real>, period: nat)
    requires period >= 1 && |prices| >= period + 1
    requires forall i :: 1 <= i <= period ==> prices[i] <= prices[i - 1]
    ensures DivHalfUp(LossTotal(prices, period), period as real, 8) != 0.0 ==> Rsi(prices, period) == Some(0.0)
    ensures DivHalfUp(LossTotal(prices, period), period as real, 8) == 0.0 ==> Rsi(prices, period) == Some(100.0)
  {
    NoGainWhenFalling(prices, period);
    HasScaleInteger(0, 8);
    RoundHalfUpExact(0.0, 8);
    var avgLoss := DivHalfUp(LossTotal(prices, period), period as real, 8);
    if avgLoss != 0.0 {
      RsiDivisorPositive(0.0, LossTotal(prices, period), period);
      assert DivHalfUp(0.0, avgLoss, 8) == 0.0;
      HasScaleInteger(100, 8);
      RoundHalfUpExact(100.0, 8);
      assert DivHalfUp(100.0, 1.0 + 0.0, 8) == 100.0;
    }
  }
}
