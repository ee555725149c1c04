/**
  DashboardService: the bounded equity history and the figures drawn from it
  (largest drawdown, Sharpe ratio, health warnings), and the per-strategy and
  recent-trade views of the position table. The exchange (balance, last price)
  and the clock are parameters.
 */
module Dashboard {
  import opened Wrappers
  import opened Decimal
  import opened Series
  import opened Domain
  import opened Sorting
  import PositionManagement
  import BacktestMetrics

  /** Ninety days of hourly points. */
  const HistoryLimit := 2160

  /** getCurrentBTCPrice: the close of the latest one-minute bar, zero when the exchange returns none. */
  function CurrentPrice(klines: seq<Bar>): real {
    if |klines| == 0 then 0.0 else klines[0].close
  }

  /** After an append, the oldest point goes once the history is over the limit. */
  function Capped(history: seq<EquityPoint>): seq<EquityPoint> {
    if |history| > HistoryLimit then history[1..] else history
  }

  /**
    Appending to a history within the limit and capping it keeps it within the
    limit, ends it with the new point and drops nothing but the oldest point.
   */
  lemma CappedKeepsLatest(history: seq<EquityPoint>, point: EquityPoint)
    requires |history| <= HistoryLimit
    ensures var h := Capped(history + [point]);
      && |h| <= HistoryLimit && |h| > 0 && h[|h| - 1] == point
      && (|history| < HistoryLimit ==> h == history + [point])
      && (|history| == HistoryLimit ==> h == history[1..] + [point])
  {
    if |history| == HistoryLimit {
      assert (history + [point])[1..] == history[1..] + [point];
    }
  }

  /** The values of the history, in order. */
  function Values(history: seq<EquityPoint>): (r: seq<real>)
    ensures |r| == |history|
    ensures forall i :: 0 <= i < |history| ==> r[i] == history[i].value
  {
    seq(|history|, i requires 0 <= i < |history| => history[i].value)
  }

  // ---------------------------------------------------------------- largest drawdown

  /** The running peak and the largest drawdown of calculateMaxDrawdown's loop. */
  datatype Peak = Peak(maxEquity: real, maxDrawdown: real)

  /** One point of the loop: the peak is raised first, then a drawdown is taken if the peak is positive. */
  function ScanPoint(p: Peak, v: real): Peak {
    var maxEquity := if v > p.maxEquity then v else p.maxEquity;
    if maxEquity > 0.0 then
      var drawdown := DivHalfUp(maxEquity - v, maxEquity, 4);
      Peak(maxEquity, if drawdown > p.maxDrawdown then drawdown else p.maxDrawdown)
    else Peak(maxEquity, p.maxDrawdown)
  }

  /** The loop over `values`, from a peak and a drawdown of zero. */
  function Scan(values: seq<real>): Peak {
    if |values| == 0 then Peak(0.0, 0.0)
    else ScanPoint(Scan(values[..|values| - 1]), values[|values| - 1])
  }

  /** calculateMaxDrawdown: zero below two points, otherwise the largest drawdown as a percentage. */
  function MaxDrawdown(values: seq<real>): real {
    if |values| < 2 then 0.0 else Scan(values).maxDrawdown * 100.0
  }

  /** The peak seen at point `i`: the largest value so far, and never below zero. */
  function PeakAt(values: seq<real>, i: nat): real
    requires i < |values|
  {
    Max(0.0, MaxOrZero(values[..i + 1]))
  }

  /** The drawdown of point `i` from the peak so far, half-up to 4 places; none while the peak is zero. */
  function DrawdownAt(values: seq<real>, i: nat): real
    requires i < |values|
  {
    var peak := PeakAt(values, i);
    if peak > 0.0 then DivHalfUp(peak - values[i], peak, 4) else 0.0
  }

  lemma PeakAtLast(values: seq<real>)
    requires |values| > 1
    ensures PeakAt(values, |values| - 1) == Max(PeakAt(values, |values| - 2), values[|values| - 1])
  {
    var n := |values|;
    assert values[..n] == values;
    assert values[..n - 1][..n - 1] == values[..n - 1];
  }

  lemma PeakAtPrefix(values: seq<real>, i: nat)
    requires i < |values| - 1
    ensures PeakAt(values[..|values| - 1], i) == PeakAt(values, i)
  {
    assert values[..|values| - 1][..i + 1] == values[..i + 1];
  }

  lemma DrawdownAtPrefix(values: seq<real>, i: nat)
    requires i < |values| - 1
    ensures DrawdownAt(values[..|values| - 1], i) == DrawdownAt(values, i)
  {
    PeakAtPrefix(values, i);
  }

  /** One more point raises the peak to it, and the drawdown to that point's. */
  lemma ScanStep(values: seq<real>)
    requires |values| > 1
    requires Scan(values[..|values| - 1]).maxEquity == PeakAt(values, |values| - 2)
    requires Scan(values[..|values| - 1]).maxDrawdown >= 0.0
    ensures Scan(values).maxEquity == PeakAt(values, |values| - 1)
    ensures Scan(values).maxDrawdown == Max(Scan(values[..|values| - 1]).maxDrawdown, DrawdownAt(values, |values| - 1))
  {
    var n := |values|;
    var before := Scan(values[..n - 1]);
    PeakAtLast(values);
    ScanPointRaises(before, values[n - 1]);
  }

  /** One step of the loop, stated on the running peak and drawdown alone. */
  lemma ScanPointRaises(before: Peak, v: real)
    requires before.maxDrawdown >= 0.0
    ensures ScanPoint(before, v).maxEquity == Max(before.maxEquity, v)
    ensures var peak := Max(before.maxEquity, v);
      ScanPoint(before, v).maxDrawdown ==
      Max(before.maxDrawdown, if peak > 0.0 then DivHalfUp(peak - v, peak, 4) else 0.0)
  {
  }

  /**
    The loop's peak is the peak of all the values, and its drawdown is the
    largest drawdown of any point: at least each point's, never negative, and
    either zero or the drawdown of some point.
   */
  lemma {:induction false} ScanIsLargestDrawdown(values: seq<real>)
    requires |values| > 0
    ensures Scan(values).maxEquity == PeakAt(values, |values| - 1)
    ensures Scan(values).maxDrawdown >= 0.0
    ensures forall i :: 0 <= i < |values| ==> DrawdownAt(values, i) <= Scan(values).maxDrawdown
    ensures Scan(values).maxDrawdown == 0.0 || exists i :: 0 <= i < |values| && Scan(values).maxDrawdown == DrawdownAt(values, i)
  {
    var n := |values|;
    if n == 1 {
      assert values[..1] == values;
    } else {
      var prefix := values[..n - 1];
      ScanIsLargestDrawdown(prefix);
      PeakAtPrefix(values, n - 2);
      ScanStep(values);
      var d := Scan(values).maxDrawdown;
      forall i | 0 <= i < n
        ensures DrawdownAt(values, i) <= d
      {
        if i < n - 1 {
          DrawdownAtPrefix(values, i);
        }
      }
      if d != 0.0 && d != DrawdownAt(values, n - 1) {
        var i :| 0 <= i < n - 1 && Scan(prefix).maxDrawdown == DrawdownAt(prefix, i);
        DrawdownAtPrefix(values, i);
      }
    }
  }

  /**
    The dashboard's largest drawdown is a percentage that is never negative, at
    least that of each point, and at most 100 while no value is negative.
   */
  lemma MaxDrawdownBounds(values: seq<real>)
    ensures MaxDrawdown(values) >= 0.0
    ensures |values| >= 2 ==> forall i :: 0 <= i < |values| ==> DrawdownAt(values, i) * 100.0 <= MaxDrawdown(values)
    ensures (forall i :: 0 <= i < |values| ==> values[i] >= 0.0) ==> MaxDrawdown(values) <= 100.0
  {
    if |values| >= 2 {
      ScanIsLargestDrawdown(values);
      if forall i :: 0 <= i < |values| ==> values[i] >= 0.0 {
        var d := Scan(values).maxDrawdown;
        if d != 0.0 {
          var i :| 0 <= i < |values| && d == DrawdownAt(values, i);
          DrawdownAtMostOne(values, i);
        }
      }
    }
  }

  /** A point that is not negative is at most its whole peak below it. */
  lemma DrawdownAtMostOne(values: seq<real>, i: nat)
    requires i < |values| && values[i] >= 0.0
    ensures DrawdownAt(values, i) <= 1.0
  {
    var peak := PeakAt(values, i);
    if peak > 0.0 {
      DivLe(peak - values[i], peak, peak);
      assert peak / peak == 1.0;
      HasScaleInteger(0, 4);
      HasScaleInteger(1, 4);
      assert values[..i + 1][i] == values[i];
      DivLe(0.0, peak - values[i], peak);
      RoundHalfUpBetween((peak - values[i]) / peak, 0.0, 1.0, 4);
    }
  }

  // ---------------------------------------------------------------- Sharpe ratio

  /** The daily returns, each over a previous value that is positive; the others are skipped. */
  function DailyReturns(values: seq<real>): (r: seq<real>)
    ensures |values| > 0 ==> |r| <= |values| - 1
  {
    if |values| < 2 then []
    else
      var n := |values|;
      var prev := values[n - 2];
      DailyReturns(values[..n - 1]) + (if prev > 0.0 then [DivHalfUp(values[n - 1] - prev, prev, 8)] else [])
  }

  /**
    When every value but the last is positive none is skipped: there is one
    return per consecutive pair.
   */
  lemma {:induction false} AllDailyReturns(values: seq<real>)
    requires |values| > 0
    requires forall i :: 0 <= i < |values| - 1 ==> values[i] > 0.0
    ensures |DailyReturns(values)| == |values| - 1
    ensures forall i :: 0 <= i < |values| - 1 ==>
      DailyReturns(values)[i] == DivHalfUp(values[i + 1] - values[i], values[i], 8)
  {
    if |values| >= 2 {
      var n := |values|;
      var prefix := values[..n - 1];
      AllDailyReturns(prefix);
    }
  }

  /** Sum of squared deviations, over n − 1 half-up to 8 places when there is more than one return. */
  function SampleVariance(rs: seq<real>, mean: real): real {
    var squares := Sum(BacktestMetrics.SquaredDeviations(rs, mean));
    if |rs| > 1 then DivHalfUp(squares, (|rs| - 1) as real, 8) else squares
  }

  lemma SampleVarianceNonNegative(rs: seq<real>, mean: real)
    ensures SampleVariance(rs, mean) >= 0.0
  {
    var squares := BacktestMetrics.SquaredDeviations(rs, mean);
    forall i | 0 <= i < |squares|
      ensures squares[i] >= 0.0
    {
      BacktestMetrics.SquareNonNegative(rs[i] - mean);
    }
    SumNonNegative(squares);
    if |rs| > 1 {
      DivHalfUpNonNegative(Sum(squares), (|rs| - 1) as real, 2);
      DivHalfUpNonNegative(Sum(squares), (|rs| - 1) as real, 8);
    }
  }

  /**
    calculateSharpeRatio: zero below 30 points, otherwise the annualised ratio
    of the daily returns.
   */
  function SharpeRatio(values: seq<real>, sqrt: real -> real): (r: Result<real, Fault>)
    ensures |values| < 30 ==> r == Success(0.0)
  {
    if |values| < 30 then Success(0.0) else AnnualisedSharpe(DailyReturns(values), sqrt)
  }

  /**
    Zero with no return or with a zero standard deviation; otherwise the
    annualised ratio of the mean return to the deviation. The square root,
    taken in double precision by the service, is a parameter.
   */
  function AnnualisedSharpe(rs: seq<real>, sqrt: real -> real): Result<real, Fault> {
    if |rs| == 0 then Success(0.0)
    else
      var mean := BacktestMetrics.AverageReturn(rs);
      var deviation := sqrt(SampleVariance(rs, mean));
      if deviation == 0.0 then Success(0.0) else Annualise(mean, deviation, sqrt(252.0))
  }

  /** The mean times √252 over the deviation times √252, half-up to 2 places; a zero product cannot be divided by. */
  function Annualise(mean: real, deviation: real, annual: real): Result<real, Fault> {
    if deviation * annual == 0.0 then Failure(DivisionByZero)
    else Success(DivHalfUp(mean * annual, deviation * annual, 2))
  }

  /**
    The √252 factors cancel: with a non-zero √252 the ratio never fails, and
    when there are returns with a non-zero deviation it is the mean over the
    deviation, half-up to 2 places.
   */
  lemma SharpeIsMeanOverDeviation(values: seq<real>, sqrt: real -> real)
    ensures sqrt(252.0) != 0.0 ==> SharpeRatio(values, sqrt).Success?
    ensures var rs := DailyReturns(values);
      |values| >= 30 && |rs| > 0 && sqrt(252.0) != 0.0 ==>
      var mean := BacktestMetrics.AverageReturn(rs);
      var deviation := sqrt(SampleVariance(rs, mean));
      deviation != 0.0 ==> SharpeRatio(values, sqrt) == Success(RoundHalfUp(mean / deviation, 2))
  {
    var rs := DailyReturns(values);
    if |values| >= 30 && |rs| > 0 && sqrt(252.0) != 0.0 {
      var mean := BacktestMetrics.AverageReturn(rs);
      var deviation := sqrt(SampleVariance(rs, mean));
      if deviation != 0.0 {
        AnnualiseIsRatio(mean, deviation, sqrt(252.0));
      }
    }
  }

  lemma AnnualiseIsRatio(mean: real, deviation: real, annual: real)
    requires deviation != 0.0 && annual != 0.0
    ensures Annualise(mean, deviation, annual) == Success(RoundHalfUp(mean / deviation, 2))
  {
    BacktestMetrics.NonZeroProduct(deviation, annual);
    BacktestMetrics.AnnualCancels(mean, deviation, annual);
  }

  /** A history that never moves has no returns but zeros, so no Sharpe ratio when √0 is 0. */
  lemma FlatHistoryHasNoSharpe(values: seq<real>, sqrt: real -> real)
    requires |values| > 0 && values[0] > 0.0 && sqrt(0.0) == 0.0
    requires forall i :: 0 <= i < |values| ==> values[i] == values[0]
    ensures SharpeRatio(values, sqrt) == Success(0.0)
  {
    FlatDailyReturns(values);
    if |values| >= 30 {
      ZeroReturnsHaveNoVariance(DailyReturns(values));
    }
  }

  /** A flat positive history has one zero return per consecutive pair. */
  lemma FlatDailyReturns(values: seq<real>)
    requires |values| > 0 && values[0] > 0.0
    requires forall i :: 0 <= i < |values| ==> values[i] == values[0]
    ensures |DailyReturns(values)| == |values| - 1
    ensures forall i :: 0 <= i < |DailyReturns(values)| ==> DailyReturns(values)[i] == 0.0
  {
    AllDailyReturns(values);
    var rs := DailyReturns(values);
    BacktestMetrics.RoundZero(8);
    forall i | 0 <= i < |rs|
      ensures rs[i] == 0.0
    {
      assert values[i + 1] - values[i] == 0.0;
      assert (values[i + 1] - values[i]) / values[i] == 0.0;
    }
  }

  /** Zero returns have a zero mean and a zero sample variance about it. */
  lemma ZeroReturnsHaveNoVariance(rs: seq<real>)
    requires |rs| > 0 && forall i :: 0 <= i < |rs| ==> rs[i] == 0.0
    ensures BacktestMetrics.AverageReturn(rs) == 0.0
    ensures SampleVariance(rs, 0.0) == 0.0
  {
    BacktestMetrics.FlatReturns(rs);
    BacktestMetrics.RoundZero(8);
    var squares := BacktestMetrics.SquaredDeviations(rs, 0.0);
    assert forall i :: 0 <= i < |squares| ==> squares[i] == 0.0;
    SumConstant(squares, 0.0);
    if |rs| > 1 {
      assert 0.0 / ((|rs| - 1) as real) == 0.0;
    }
  }

  // ---------------------------------------------------------------- per-strategy figures

  /** The positions of one strategy, in table order. */
  function Group(positions: seq<Position>, strategy: Strategy): (r: seq<Position>)
    ensures |r| <= |positions|
    ensures forall p :: p in r <==> p in positions && p.strategy == strategy
  {
    if |positions| == 0 then []
    else
      var last := positions[|positions| - 1];
      Group(positions[..|positions| - 1], strategy) + (if last.strategy == strategy then [last] else [])
  }

  /** The non-null profits, zero in place of the null ones. */
  function Profits(group: seq<Position>): (r: seq<real>)
    ensures |r| == |group|
    ensures forall i :: 0 <= i < |group| ==> r[i] == (if group[i].profit.Some? then group[i].profit.value else 0.0)
  {
    seq(|group|, i requires 0 <= i < |group| => if group[i].profit.Some? then group[i].profit.value else 0.0)
  }

  /** The positions with a positive profit. */
  function Wins(group: seq<Position>): (n: nat)
    ensures n <= |group|
  {
    if |group| == 0 then 0
    else
      var last := group[|group| - 1];
      Wins(group[..|group| - 1]) + (if last.profit.Some? && last.profit.value > 0.0 then 1 else 0)
  }

  /** One strategy's figures: the win rate in percent and the mean profit half-up to 4 places. */
  function MetricsOf(strategy: Strategy, group: seq<Position>): StrategyMetrics {
    var pnl := Sum(Profits(group));
    if |group| == 0 then StrategyMetrics(StrategyName(strategy), 0, pnl, None, None)
    else
      StrategyMetrics(StrategyName(strategy), |group|, pnl,
        Some((Wins(group) as real) * 100.0 / (|group| as real)),
        Some(DivHalfUp(pnl, |group| as real, 4)))
  }

  /** The strategies some position belongs to. */
  function StrategiesIn(positions: seq<Position>): set<Strategy> {
    set i | 0 <= i < |positions| :: positions[i].strategy
  }

  lemma StrategyNameInjective(a: Strategy, b: Strategy)
    requires StrategyName(a) == StrategyName(b)
    ensures a == b
  {
    match a
    case TrendFollowing => assert StrategyName(a)[0] == 'T';
    case VolatilityBreakout => assert StrategyName(a)[1] == 'O';
    case MeanReversion => assert StrategyName(a)[0] == 'M';
    case VolumeSpikeReversal => assert StrategyName(a)[7] == 'S';
    case VolumeWeightedBreakout => assert StrategyName(a)[7] == 'W';
  }

  /** getStrategyPerformance: the table grouped by strategy and keyed by the strategy's name. */
  function StrategyPerformance(positions: seq<Position>): map<string, StrategyMetrics> {
    map s | s in StrategiesIn(positions) :: StrategyName(s) := MetricsOf(s, Group(positions, s))
  }

  /** A win rate is a percentage: between 0 and 100. */
  lemma WinRateBounds(wins: nat, trades: nat)
    requires wins <= trades && trades > 0
    ensures 0.0 <= (wins as real) * 100.0 / (trades as real) <= 100.0
  {
    var w := wins as real;
    var n := trades as real;
    DivLe(0.0, w * 100.0, n);
    DivLe(w * 100.0, n * 100.0, n);
    assert n * 100.0 / n == 100.0;
  }

  /** There is an entry for exactly the strategies that occur, keyed by the strategy's name. */
  lemma StrategyPerformanceKeys(positions: seq<Position>, s: Strategy)
    ensures StrategyName(s) in StrategyPerformance(positions) <==> s in StrategiesIn(positions)
    ensures StrategyName(s) in StrategyPerformance(positions) ==>
      StrategyPerformance(positions)[StrategyName(s)] == MetricsOf(s, Group(positions, s))
  {
    forall a, b | StrategyName(a) == StrategyName(b)
      ensures a == b
    {
      StrategyNameInjective(a, b);
    }
  }

  /**
    Each entry counts its strategy's positions, sums their non-null profits,
    has a win rate between 0 and 100 and the mean profit half-up to 4 places.
   */
  lemma StrategyPerformanceFacts(positions: seq<Position>, s: Strategy)
    requires StrategyName(s) in StrategyPerformance(positions)
    ensures var m := StrategyPerformance(positions)[StrategyName(s)];
      var group := Group(positions, s);
      && m.name == StrategyName(s) && m.trades == |group| > 0
      && m.pnl == Sum(Profits(group))
      && m.winRate.Some? && 0.0 <= m.winRate.value <= 100.0
      && m.avgReturn == Some(DivHalfUp(m.pnl, m.trades as real, 4))
  {
    StrategyPerformanceKeys(positions, s);
    assert s in StrategiesIn(positions);
    var i :| 0 <= i < |positions| && positions[i].strategy == s;
    var group := Group(positions, s);
    assert positions[i] in group;
    MetricsOfFacts(s, group);
  }

  lemma MetricsOfFacts(s: Strategy, group: seq<Position>)
    requires |group| > 0
    ensures var m := MetricsOf(s, group);
      && m.name == StrategyName(s) && m.trades == |group|
      && m.pnl == Sum(Profits(group))
      && m.winRate.Some? && 0.0 <= m.winRate.value <= 100.0
      && m.avgReturn == Some(DivHalfUp(m.pnl, m.trades as real, 4))
  {
    WinRateBounds(Wins(group), |group|);
  }

  /** Every position falls in exactly one strategy's group. */
  lemma {:induction false} GroupsPartition(positions: seq<Position>)
    ensures |Group(positions, TrendFollowing)| + |Group(positions, VolatilityBreakout)| + |Group(positions, MeanReversion)|
      + |Group(positions, VolumeSpikeReversal)| + |Group(positions, VolumeWeightedBreakout)| == |positions|
  {
    if |positions| > 0 {
      GroupsPartition(positions[..|positions| - 1]);
    }
  }

  // ---------------------------------------------------------------- recent trades

  datatype RecentTrade = RecentTrade(
    time: int,
    symbol: string,
    side: string,
    price: Option<real>,
    quantity: real,
    pnl: Option<real>,
    strategy: string)

  /** convertToRecentTrade: every row of the view is an exit, so its side is SELL. */
  function ToRecentTrade(p: Position): RecentTrade
    requires p.exitTime.Some?
  {
    RecentTrade(p.exitTime.value, p.symbol, "SELL", p.exitPrice, p.quantity, p.profit, StrategyName(p.strategy))
  }

  /** The positions with an exit time, in table order. */
  function Exited(positions: seq<Position>): (r: seq<Position>)
    ensures |r| <= |positions|
    ensures forall i :: 0 <= i < |r| ==> r[i] in positions && r[i].exitTime.Some?
    ensures forall i :: 0 <= i < |positions| && positions[i].exitTime.Some? ==> positions[i] in r
  {
    if |positions| == 0 then []
    else
      var last := positions[|positions| - 1];
      Exited(positions[..|positions| - 1]) + (if last.exitTime.Some? then [last] else [])
  }

  /** Newest exit first is ascending order of the negated exit time. */
  function NewestFirst(p: Position): real {
    if p.exitTime.Some? then -(p.exitTime.value as real) else 0.0
  }

  /** The exited positions, newest exit first; ties keep table order (ByExitKeepsTableOrderOnTies). */
  function ByExit(positions: seq<Position>): (r: seq<Position>)
    ensures |r| == |Exited(positions)|
    ensures multiset(r) == multiset(Exited(positions))
    ensures forall p :: p in r <==> p in positions && p.exitTime.Some?
    ensures forall i, j :: 0 <= i < j < |r| ==> r[i].exitTime.value >= r[j].exitTime.value
  {
    var exited := Exited(positions);
    var sorted := SortBy(exited, NewestFirst);
    SameElements(sorted, exited);
    NewestFirstDescends(sorted);
    sorted
  }

  /** Ascending by NewestFirst is descending by exit time, for rows that all have one. */
  lemma NewestFirstDescends(s: seq<Position>)
    requires forall p :: p in s ==> p.exitTime.Some?
    requires SortedBy(s, NewestFirst)
    ensures forall i, j :: 0 <= i < j < |s| ==> s[i].exitTime.value >= s[j].exitTime.value
  {
    forall i, j | 0 <= i < j < |s|
      ensures s[i].exitTime.value >= s[j].exitTime.value
    {
      assert s[i] in s && s[j] in s;
      assert NewestFirst(s[i]) <= NewestFirst(s[j]);
    }
  }

  /**
    Positions that exited at the same time keep their table order: the rows
    whose key is `k` (an exit time of -k) appear in ByExit as in the table.
   */
  lemma ByExitKeepsTableOrderOnTies(positions: seq<Position>, k: real)
    ensures WithKey(ByExit(positions), NewestFirst, k) == WithKey(Exited(positions), NewestFirst, k)
  {
    SortByIsStable(Exited(positions), NewestFirst, k);
  }

  /**
    getRecentTrades: the exited positions sorted newest exit first, the first
    `limit` of them, as trade rows.
   */
  function RecentTrades(positions: seq<Position>, limit: nat): (r: seq<RecentTrade>)
    ensures |r| == if limit < |Exited(positions)| then limit else |Exited(positions)|
    ensures forall i, j :: 0 <= i < j < |r| ==> r[i].time >= r[j].time
    ensures forall i :: 0 <= i < |r| ==> r[i].side == "SELL"
  {
    var sorted := ByExit(positions);
    var n := if limit < |sorted| then limit else |sorted|;
    seq(n, i requires 0 <= i < n => ToRecentTrade(sorted[i]))
  }

  /** Every row of the view is an exited position of the table. */
  lemma RecentTradesFromTable(positions: seq<Position>, limit: nat, i: nat)
    requires i < |RecentTrades(positions, limit)|
    ensures exists p :: p in positions && p.exitTime.Some? && RecentTrades(positions, limit)[i] == ToRecentTrade(p)
  {
    var p := ByExit(positions)[i];
    assert RecentTrades(positions, limit)[i] == ToRecentTrade(p);
  }

  /**
    The view is the head of the newest-first order: row i is the i-th position
    of ByExit (a permutation of the exited positions), and no exited position
    left out of the view exited later than any row shown.
   */
  lemma RecentTradesAreNewest(positions: seq<Position>, limit: nat)
    ensures var s := ByExit(positions); var r := RecentTrades(positions, limit);
      && |r| <= |s|
      && (forall i :: 0 <= i < |r| ==> s[i].exitTime.Some? && r[i] == ToRecentTrade(s[i]))
      && (forall i, j :: 0 <= i < |r| <= j < |s| ==> s[j].exitTime.Some? && s[j].exitTime.value <= r[i].time)
  {
    var s := ByExit(positions);
    var r := RecentTrades(positions, limit);
    forall i | 0 <= i < |s|
      ensures s[i].exitTime.Some?
    {
      assert s[i] in s;
    }
  }

  /** Every exited position is in the view when the limit allows them all. */
  lemma RecentTradesComplete(positions: seq<Position>, limit: nat, p: Position)
    requires p in positions && p.exitTime.Some? && |Exited(positions)| <= limit
    ensures ToRecentTrade(p) in RecentTrades(positions, limit)
  {
    var sorted := ByExit(positions);
    var i :| 0 <= i < |sorted| && sorted[i] == p;
    assert RecentTrades(positions, limit)[i] == ToRecentTrade(p);
  }

  // ---------------------------------------------------------------- health

  const LowBalance := "Low account balance"
  const HighDrawdown := "High drawdown detected"

  /** The fixed flags of getSystemHealth and its warnings; the update time is not modelled. */
  datatype SystemHealth = SystemHealth(
    tradingEnabled: bool,
    dataFeedActive: bool,
    alertsActive: bool,
    apiCallsRemaining: int,
    warnings: seq<string>)

  /** A low-balance warning under 100, then a drawdown warning over 10 percent. */
  function Warnings(balance: real, drawdown: real): (w: seq<string>)
    ensures LowBalance in w <==> balance < 100.0
    ensures HighDrawdown in w <==> drawdown > 10.0
    ensures |w| <= 2
  {
    (if balance < 100.0 then [LowBalance] else []) + (if drawdown > 10.0 then [HighDrawdown] else [])
  }

  function Health(balance: real, history: seq<EquityPoint>): SystemHealth {
    SystemHealth(true, true, true, 1200, Warnings(balance, MaxDrawdown(Values(history))))
  }

  /** The returns loop of calculateSharpeRatio. */
  method CalculateDailyReturns(values: seq<real>) returns (rs: seq<real>)
    ensures rs == DailyReturns(values)
  {
    rs := [];
    if |values| == 0 {
      return;
    }
    var i := 1;
    while i < |values|
      invariant 1 <= i <= |values|
      invariant rs == DailyReturns(values[..i])
    {
      assert values[..i + 1][..i] == values[..i];
      var prev := values[i - 1];
      if prev > 0.0 {
        rs := rs + [DivHalfUp(values[i] - prev, prev, 8)];
      }
      i := i + 1;
    }
    assert values[..i] == values;
  }

  /** The mean, the variance loop and the deviation of calculateSharpeRatio. */
  method CalculateAnnualisedSharpe(rs: seq<real>, sqrt: real -> real) returns (r: Result<real, Fault>)
    ensures r == AnnualisedSharpe(rs, sqrt)
  {
    if |rs| == 0 {
      return Success(0.0);
    }
    var mean := DivHalfUp(Sum(rs), |rs| as real, 8);
    var variance := BacktestMetrics.SumOfSquares(rs, mean);
    if |rs| > 1 {
      variance := DivHalfUp(variance, (|rs| - 1) as real, 8);
    }
    assert mean == BacktestMetrics.AverageReturn(rs);
    assert variance == SampleVariance(rs, mean);
    var deviation := sqrt(variance);
    if deviation == 0.0 {
      return Success(0.0);
    }
    r := Annualise(mean, deviation, sqrt(252.0));
  }

  // ---------------------------------------------------------------- the service

  class DashboardService {
    var equityHistory: seq<EquityPoint>

    ghost predicate Valid()
      reads this
    {
      |equityHistory| <= HistoryLimit
    }

    constructor()
      ensures Valid() && equityHistory == []
    {
      equityHistory := [];
    }

    /**
      recordEquityPoint: the balance plus the unrealised profit of the open
      positions at the latest price, appended; the oldest point goes once the
      history is over the limit.
     */
    method RecordEquityPoint(balance: real, positions: seq<Position>, klines: seq<Bar>, now: int)
      requires Valid()
      modifies this
      ensures Valid()
      ensures equityHistory == Capped(old(equityHistory)
        + [EquityPoint(now, balance + PositionManagement.UnrealizedPnL(positions, CurrentPrice(klines)))])
    {
      var unrealized := PositionManagement.UnrealizedPnL(positions, CurrentPrice(klines));
      var point := EquityPoint(now, balance + unrealized);
      CappedKeepsLatest(equityHistory, point);
      equityHistory := equityHistory + [point];
      if |equityHistory| > HistoryLimit {
        equityHistory := equityHistory[1..];
      }
    }

    /** calculateMaxDrawdown: the loop over the history. */
    method CalculateMaxDrawdown() returns (r: real)
      ensures r == MaxDrawdown(Values(equityHistory))
    {
      var values := Values(equityHistory);
      if |values| < 2 {
        return 0.0;
      }
      var peak := Peak(0.0, 0.0);
      var i := 0;
      while i < |values|
        invariant 0 <= i <= |values|
        invariant peak == Scan(values[..i])
      {
        assert values[..i + 1][..i] == values[..i];
        var v := values[i];
        var maxEquity := peak.maxEquity;
        var maxDrawdown := peak.maxDrawdown;
        if v > maxEquity {
          maxEquity := v;
        }
        if maxEquity > 0.0 {
          var drawdown := DivHalfUp(maxEquity - v, maxEquity, 4);
          if drawdown > maxDrawdown {
            maxDrawdown := drawdown;
          }
        }
        peak := Peak(maxEquity, maxDrawdown);
        i := i + 1;
      }
      assert values[..i] == values;
      r := peak.maxDrawdown * 100.0;
    }

    /** calculateSharpeRatio over the history. */
    method CalculateSharpeRatio(sqrt: real -> real) returns (r: Result<real, Fault>)
      ensures r == SharpeRatio(Values(equityHistory), sqrt)
    {
      var values := Values(equityHistory);
      if |values| < 30 {
        return Success(0.0);
      }
      var rs := CalculateDailyReturns(values);
      r := CalculateAnnualisedSharpe(rs, sqrt);
    }

    /** getSystemHealth: the warnings for the balance and the history's largest drawdown. */
    method GetSystemHealth(balance: real) returns (h: SystemHealth)
      ensures h == Health(balance, equityHistory)
    {
      var drawdown := CalculateMaxDrawdown();
      var warnings: seq<string> := [];
      if balance < 100.0 {
        warnings := warnings + [LowBalance];
      }
      if drawdown > 10.0 {
        warnings := warnings + [HighDrawdown];
      }
      h := SystemHealth(true, true, true, 1200, warnings);
    }
  }
}
