/**
  Pieces shared by the four strategy analyzers: the HOLD signal every
  `createHoldSignal` builds and the 20-bar average volume each of them computes.
 */
module StrategyCommon {
  import opened Wrappers
  import opened Decimal
  import opened Series
  import opened Domain

  /** createHoldSignal: HOLD with a reason, and no price, stop, target or confidence. */
  function HoldSignal(strategy: Strategy, reason: string): (s: Signal)
    ensures s.kind == Hold && s.strategy == strategy && s.reason == reason
    ensures s.price.None? && s.stopLoss.None? && s.takeProfit.None? && s.confidence.None?
  {
    Signal(Hold, strategy, None, None, None, None, reason)
  }

  /**
    The volumes of the last 20 bars (or of all bars when there are fewer), summed
    and divided by 20, half-up to 8 places.
   */
  function AverageVolume20(bars: seq<Bar>): real {
    DivHalfUp(Sum(Volumes(Last(bars, 20))), 20.0, 8)
  }

  /**
    With fewer than 20 bars the average still divides by 20, not by the number of
    bars: it is the sum of all the volumes over 20.
   */
  lemma AverageVolumeDividesByTwenty(bars: seq<Bar>)
    requires |bars| < 20
    ensures AverageVolume20(bars) == DivHalfUp(Sum(Volumes(bars)), 20.0, 8)
  {
    assert Last(bars, 20) == bars;
  }

  /** Only the last 20 bars contribute to the average volume. */
  lemma AverageVolumeOfLastTwenty(bars: seq<Bar>, k: nat)
    requires 20 <= k <= |bars|
    ensures AverageVolume20(bars[|bars| - k..]) == AverageVolume20(bars)
  {
    assert Volumes(Last(bars[|bars| - k..], 20)) == Volumes(Last(bars, 20));
  }

  /** The average of non-negative volumes is non-negative. */
  lemma AverageVolumeNonNegative(bars: seq<Bar>)
    requires forall i :: 0 <= i < |bars| ==> bars[i].volume >= 0.0
    ensures AverageVolume20(bars) >= 0.0
  {
    var v := Volumes(Last(bars, 20));
    LastVolumesNonNegative(bars);
    SumNonNegative(v);
    DivHalfUpNonNegative(Sum(v), 20.0, 8);
  }

  lemma LastVolumesNonNegative(bars: seq<Bar>)
    requires forall i :: 0 <= i < |bars| ==> bars[i].volume >= 0.0
    ensures forall i :: 0 <= i < |Volumes(Last(bars, 20))| ==> Volumes(Last(bars, 20))[i] >= 0.0
  {
    var w := Last(bars, 20);
    var v := Volumes(w);
    forall i | 0 <= i < |v|
      ensures v[i] >= 0.0
    {
      var j := |bars| - |w| + i;
      assert v[i] == w[i].volume && w[i] == bars[j];
    }
  }
}
