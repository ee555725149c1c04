/**
  Running the enabled analyzers over one window of bars and picking the signal
  to act on. Both the live engine (analyzeStrategies, selectBestSignal) and the
  backtester (generateSignals, selectBestSignal) do this the same way.
 */
module SignalSelection {
  import opened Wrappers
  import opened Domain
  import TF = TrendFollowing
  import VB = VolatilityBreakout
  import MR = RangeMeanReversion
  import VS = VolumeSpikeReversal

  /** The settings of the four analyzers, and the square root the bands use. */
  datatype StrategyParams = StrategyParams(
    trendFollowing: TF.Params,
    volatilityBreakout: VB.Params,
    meanReversion: MR.Params,
    volumeSpike: VS.Params,
    sqrt: real -> real)

  /** Which analyzers are switched on. */
  datatype Enabled = Enabled(trendFollowing: bool, volatilityBreakout: bool, meanReversion: bool, volumeSpike: bool)

  /** The strategies whose signals are collected, in the order they are asked. */
  function EnabledStrategies(e: Enabled): seq<Strategy> {
    (if e.trendFollowing then [TrendFollowing] else [])
    + (if e.volatilityBreakout then [VolatilityBreakout] else [])
    + (if e.meanReversion then [MeanReversion] else [])
    + (if e.volumeSpike then [VolumeSpikeReversal] else [])
  }

  function StrategiesOf(signals: seq<Signal>): (r: seq<Strategy>)
    ensures |r| == |signals|
    ensures forall i :: 0 <= i < |signals| ==> r[i] == signals[i].strategy
  {
    seq(|signals|, i requires 0 <= i < |signals| => signals[i].strategy)
  }

  lemma StrategiesOfConcat(a: seq<Signal>, b: seq<Signal>)
    ensures StrategiesOf(a + b) == StrategiesOf(a) + StrategiesOf(b)
  {
  }

  /** The signals of the enabled analyzers, in order, once none of them has thrown. */
  function EnabledSignals(e: Enabled, tf: Result<Signal, Fault>, vb: Result<Signal, Fault>,
                          mr: Result<Signal, Fault>, vs: Signal): (r: seq<Signal>)
    requires e.trendFollowing ==> tf.Success? && tf.value.strategy == TrendFollowing
    requires e.volatilityBreakout ==> vb.Success? && vb.value.strategy == VolatilityBreakout
    requires e.meanReversion ==> mr.Success? && mr.value.strategy == MeanReversion
    requires vs.strategy == VolumeSpikeReversal
    ensures StrategiesOf(r) == EnabledStrategies(e)
  {
    var a := if e.trendFollowing then [tf.value] else [];
    var b := if e.volatilityBreakout then [vb.value] else [];
    var c := if e.meanReversion then [mr.value] else [];
    var d := if e.volumeSpike then [vs] else [];
    assert StrategiesOf(a) == if e.trendFollowing then [TrendFollowing] else [];
    assert StrategiesOf(b) == if e.volatilityBreakout then [VolatilityBreakout] else [];
    assert StrategiesOf(c) == if e.meanReversion then [MeanReversion] else [];
    assert StrategiesOf(d) == if e.volumeSpike then [VolumeSpikeReversal] else [];
    StrategiesOfConcat(a, b);
    StrategiesOfConcat(a + b, c);
    StrategiesOfConcat(a + b + c, d);
    a + b + c + d
  }

  /**
    The list built from the analyzers' outcomes: the signal of each enabled
    analyzer in order, or the fault of the first enabled analyzer that threw.
   */
  function CollectSignals(e: Enabled, tf: Result<Signal, Fault>, vb: Result<Signal, Fault>,
                          mr: Result<Signal, Fault>, vs: Signal): (r: Result<seq<Signal>, Fault>)
    requires tf.Success? ==> tf.value.strategy == TrendFollowing
    requires vb.Success? ==> vb.value.strategy == VolatilityBreakout
    requires mr.Success? ==> mr.value.strategy == MeanReversion
    requires vs.strategy == VolumeSpikeReversal
    ensures r.Success? ==> StrategiesOf(r.value) == EnabledStrategies(e)
    ensures r.Failure? <==>
      (e.trendFollowing && tf.Failure?) || (e.volatilityBreakout && vb.Failure?) || (e.meanReversion && mr.Failure?)
  {
    if e.trendFollowing && tf.Failure? then Failure(tf.error)
    else if e.volatilityBreakout && vb.Failure? then Failure(vb.error)
    else if e.meanReversion && mr.Failure? then Failure(mr.error)
    else Success(EnabledSignals(e, tf, vb, mr, vs))
  }

  /**
    analyzeStrategies / generateSignals: one signal per enabled analyzer, asked
    in the order trend following, volatility breakout, mean reversion, volume
    spike. An analyzer that throws ends the collection with its fault; the
    analyzers are pure, so the ones after it are not observable.
   */
  function GenerateSignals(e: Enabled, p: StrategyParams, bars: seq<Bar>): (r: Result<seq<Signal>, Fault>)
    ensures r.Success? ==> StrategiesOf(r.value) == EnabledStrategies(e)
  {
    CollectSignals(e, TF.Analyze(p.trendFollowing, bars), VB.Analyze(p.volatilityBreakout, bars),
      MR.Analyze(p.meanReversion, bars, p.sqrt), VS.Analyze(p.volumeSpike, bars))
  }

  /** Kept by the two filters: not HOLD, and with a confidence. */
  predicate Eligible(s: Signal) {
    s.kind != Hold && s.confidence.Some?
  }

  function Confidence(s: Signal): real
    requires s.confidence.Some?
  {
    s.confidence.value
  }

  /**
    `signals[i]` is the first eligible signal of greatest confidence: no eligible
    signal is more confident, and every eligible one before it is strictly less.
   */
  predicate IsEarliestMaximum(signals: seq<Signal>, i: int) {
    && 0 <= i < |signals|
    && Eligible(signals[i])
    && (forall j :: 0 <= j < |signals| && Eligible(signals[j]) ==> Confidence(signals[j]) <= Confidence(signals[i]))
    && (forall j :: 0 <= j < i && Eligible(signals[j]) ==> Confidence(signals[j]) < Confidence(signals[i]))
  }

  /**
    selectBestSignal: the filtered stream reduced with `maxBy`, which keeps the
    element already held unless the next one is strictly more confident.
   */
  function SelectBestSignal(signals: seq<Signal>): (r: Option<Signal>)
    ensures r.Some? ==> Eligible(r.value)
  {
    if |signals| == 0 then None
    else
      var best := SelectBestSignal(signals[..|signals| - 1]);
      var s := signals[|signals| - 1];
      if !Eligible(s) then best
      else if best.None? || Confidence(best.value) < Confidence(s) then Some(s)
      else best
  }

  /**
    No signal is selected exactly when none is eligible; otherwise the selected
    one is the earliest eligible signal of greatest confidence.
   */
  lemma {:induction false} SelectBestIsEarliestMaximum(signals: seq<Signal>)
    ensures SelectBestSignal(signals).None? <==> forall i :: 0 <= i < |signals| ==> !Eligible(signals[i])
    ensures SelectBestSignal(signals).Some? ==>
      exists i :: IsEarliestMaximum(signals, i) && SelectBestSignal(signals).value == signals[i]
  {
    if |signals| > 0 {
      var n := |signals|;
      var prefix := signals[..n - 1];
      var s := signals[n - 1];
      SelectBestIsEarliestMaximum(prefix);
      var best := SelectBestSignal(prefix);
      assert forall j :: 0 <= j < n - 1 ==> prefix[j] == signals[j];
      if best.Some? {
        var k :| IsEarliestMaximum(prefix, k) && best.value == prefix[k];
        if Eligible(s) && Confidence(best.value) < Confidence(s) {
          assert IsEarliestMaximum(signals, n - 1);
        } else {
          assert IsEarliestMaximum(signals, k);
        }
      } else if Eligible(s) {
        assert IsEarliestMaximum(signals, n - 1);
      }
    }
  }

  /** There is at most one earliest maximum, so the selection is fully determined. */
  lemma EarliestMaximumUnique(signals: seq<Signal>, i: int, j: int)
    requires IsEarliestMaximum(signals, i) && IsEarliestMaximum(signals, j)
    ensures i == j
  {
  }

  /** A selected signal's strategy is one of the enabled ones. */
  lemma SelectedFromEnabled(e: Enabled, p: StrategyParams, bars: seq<Bar>)
    requires GenerateSignals(e, p, bars).Success?
    requires SelectBestSignal(GenerateSignals(e, p, bars).value).Some?
    ensures SelectBestSignal(GenerateSignals(e, p, bars).value).value.strategy in EnabledStrategies(e)
  {
    var signals := GenerateSignals(e, p, bars).value;
    SelectBestIsEarliestMaximum(signals);
    var i :| IsEarliestMaximum(signals, i) && SelectBestSignal(signals).value == signals[i];
    assert StrategiesOf(signals)[i] == signals[i].strategy;
  }
}
