/**
  VolumeSpikeReversalStrategy: on a bar whose volume spikes above a multiple of
  the 20-bar average, a long upper wick signals a SELL and a long lower wick a BUY.
 */
module VolumeSpikeReversal {
  import opened Wrappers
  import opened Decimal
  import opened Domain
  import opened StrategyCommon

  /** The `trading.strategies.volume-spike.*` settings. */
  datatype Params = Params(volumeMultiplier: real, wickRatio: real)

  const MinimumBars: nat := 20

  /** high − low. */
  function Range(b: Bar): real {
    b.high - b.low
  }

  /** |close − open|. */
  function Body(b: Bar): real {
    Abs(b.close - b.open)
  }

  /** high − max(close, open). */
  function UpperWick(b: Bar): real {
    b.high - Max(b.close, b.open)
  }

  /** min(close, open) − low. */
  function LowerWick(b: Bar): real {
    Min(b.close, b.open) - b.low
  }

  /** A wick is long when it exceeds `wickRatio` times the bar's range. */
  function WickThreshold(b: Bar, wickRatio: real): real {
    Range(b) * wickRatio
  }

  /** The current volume is strictly above the multiplied average volume. */
  predicate VolumeSpike(p: Params, bars: seq<Bar>)
    requires |bars| > 0
  {
    bars[|bars| - 1].volume > AverageVolume20(bars) * p.volumeMultiplier
  }

  function SellSignal(b: Bar): Signal {
    Signal(Sell, VolumeSpikeReversal, Some(b.close), Some(b.high * 1.01),
      Some(b.close - Range(b)), Some(0.60), "Volume spike with upper wick rejection")
  }

  function BuySignal(b: Bar): Signal {
    Signal(Buy, VolumeSpikeReversal, Some(b.close), Some(b.low * 0.99),
      Some(b.close + Range(b)), Some(0.60), "Volume spike with lower wick rejection")
  }

  /** The wick tests made on a spike bar; the upper wick is tested first. */
  function WickSignal(b: Bar, wickRatio: real): (s: Signal)
    ensures s.strategy == VolumeSpikeReversal
  {
    if UpperWick(b) > WickThreshold(b, wickRatio) then SellSignal(b)
    else if LowerWick(b) > WickThreshold(b, wickRatio) then BuySignal(b)
    else HoldSignal(VolumeSpikeReversal, "No volume spike reversal")
  }

  /** analyze. Nothing in it can throw, so it always yields a signal. */
  function Analyze(p: Params, bars: seq<Bar>): (s: Signal)
    ensures s.strategy == VolumeSpikeReversal
  {
    if |bars| < MinimumBars then HoldSignal(VolumeSpikeReversal, "Insufficient data")
    else if VolumeSpike(p, bars) then WickSignal(bars[|bars| - 1], p.wickRatio)
    else HoldSignal(VolumeSpikeReversal, "No volume spike reversal")
  }

  lemma InsufficientData(p: Params, bars: seq<Bar>)
    requires |bars| < MinimumBars
    ensures Analyze(p, bars) == HoldSignal(VolumeSpikeReversal, "Insufficient data")
  {
  }

  /** Without a volume spike there is never a trade, whatever the wicks. */
  lemma NoSpikeHolds(p: Params, bars: seq<Bar>)
    requires |bars| >= MinimumBars && !VolumeSpike(p, bars)
    ensures Analyze(p, bars) == HoldSignal(VolumeSpikeReversal, "No volume spike reversal")
  {
  }

  /**
    SELL exactly on a spike whose upper wick is long; BUY exactly on a spike whose
    upper wick is not long but whose lower wick is. Each carries the levels built
    from the current bar.
   */
  lemma SignalCases(p: Params, bars: seq<Bar>)
    ensures var s := Analyze(p, bars);
      s.kind == Sell <==> (|bars| >= MinimumBars && VolumeSpike(p, bars)
        && UpperWick(bars[|bars| - 1]) > WickThreshold(bars[|bars| - 1], p.wickRatio))
    ensures var s := Analyze(p, bars);
      s.kind == Buy <==> (|bars| >= MinimumBars && VolumeSpike(p, bars)
        && !(UpperWick(bars[|bars| - 1]) > WickThreshold(bars[|bars| - 1], p.wickRatio))
        && LowerWick(bars[|bars| - 1]) > WickThreshold(bars[|bars| - 1], p.wickRatio))
    ensures var s := Analyze(p, bars);
      s.kind == Sell ==> s == SellSignal(bars[|bars| - 1])
    ensures var s := Analyze(p, bars);
      s.kind == Buy ==> s == BuySignal(bars[|bars| - 1])
  {
  }

  /** The two wicks and the body partition the bar's range. */
  lemma WickIdentity(b: Bar)
    ensures UpperWick(b) + Body(b) + LowerWick(b) == Range(b)
  {
  }

  /**
    On a well-formed bar with a wick ratio of at least one half, the two wicks
    cannot both be long, so the order of the two tests never matters.
   */
  lemma AtMostOneLongWick(b: Bar, wickRatio: real)
    requires WellFormedBar(b) && wickRatio >= 0.5
    ensures !(UpperWick(b) > WickThreshold(b, wickRatio) && LowerWick(b) > WickThreshold(b, wickRatio))
  {
    WickIdentity(b);
    MulLe(0.5, wickRatio, Range(b));
    assert Range(b) * 0.5 <= WickThreshold(b, wickRatio);
  }

  /**
    On a well-formed spike bar with a non-negative low, a SELL has its target at
    or below the price and its stop above the high, and a BUY has its stop at or
    below the low and its target at or above the price.
   */
  lemma ProtectiveLevels(p: Params, bars: seq<Bar>)
    requires |bars| > 0 && WellFormedBar(bars[|bars| - 1]) && bars[|bars| - 1].low >= 0.0
    ensures var s := Analyze(p, bars); var b := bars[|bars| - 1];
      s.kind == Sell ==> s.takeProfit.value <= s.price.value <= b.high <= s.stopLoss.value
    ensures var s := Analyze(p, bars); var b := bars[|bars| - 1];
      s.kind == Buy ==> s.stopLoss.value <= b.low <= s.price.value <= s.takeProfit.value
  {
    SignalCases(p, bars);
  }
}
