/**
  PortfolioManager: sizing from a per-strategy share of the account, the
  exposure limit, and the realised profit of each strategy.
 */
module PortfolioManager {
  import opened Wrappers
  import opened Decimal
  import opened Series
  import opened Domain
  import opened Repository
  import RiskManagement

  /** getStrategyAllocation: the configured share, 0.1 for a strategy the switch does not list. */
  function Allocation(a: StrategyAllocation, strategy: Strategy): real {
    match strategy
    case TrendFollowing => a.trendFollowing
    case VolatilityBreakout => a.volatilityBreakout
    case MeanReversion => a.rangeReversion
    case VolumeSpikeReversal => a.volumeSpikeReversal
    case VolumeWeightedBreakout => 0.1
  }

  /** accountBalance × allocation. */
  function AvailableCapital(config: TradingConfig, strategy: Strategy): real {
    config.accountBalance * Allocation(config.allocation, strategy)
  }

  /** availableCapital × riskPerTrade. */
  function RiskAmount(config: TradingConfig, strategy: Strategy): real {
    AvailableCapital(config, strategy) * config.riskPerTrade
  }

  /**
    calculatePositionSize: the smaller of the risk amount over the stop distance
    and the available capital over the price, both rounded toward zero to 8
    places. A zero stop distance gives zero; a missing stop throws, and so does a
    zero price once the distance is not zero.
   */
  function PositionSize(config: TradingConfig, signal: Signal, currentPrice: real): (r: Result<real, Fault>)
    ensures r.Failure? <==> signal.stopLoss.None? || (currentPrice == 0.0 && signal.stopLoss.value != 0.0)
    ensures signal.stopLoss.Some? && currentPrice == signal.stopLoss.value ==> r == Success(0.0)
  {
    if signal.stopLoss.None? then Failure(NullPointer)
    else
      var distance := Abs(currentPrice - signal.stopLoss.value);
      if distance == 0.0 then Success(0.0)
      else if currentPrice == 0.0 then Failure(DivisionByZero)
      else
        var sized := DivDown(RiskAmount(config, signal.strategy), distance, 8);
        var maxPosition := DivDown(AvailableCapital(config, signal.strategy), currentPrice, 8);
        Success(Min(sized, maxPosition))
  }

  /**
    With a non-negative available capital and a positive price, the position's
    value never exceeds the capital allotted to its strategy, because both
    quotients are rounded toward zero.
   */
  lemma PositionWithinAllocation(config: TradingConfig, signal: Signal, currentPrice: real)
    requires PositionSize(config, signal, currentPrice).Success?
    requires currentPrice > 0.0 && AvailableCapital(config, signal.strategy) >= 0.0
    ensures PositionSize(config, signal, currentPrice).value * currentPrice <= AvailableCapital(config, signal.strategy)
  {
    var available := AvailableCapital(config, signal.strategy);
    var size := PositionSize(config, signal, currentPrice).value;
    if size != 0.0 {
      var distance := Abs(currentPrice - signal.stopLoss.value);
      assert size == Min(DivDown(RiskAmount(config, signal.strategy), distance, 8), DivDown(available, currentPrice, 8));
      CappedByCapital(DivDown(RiskAmount(config, signal.strategy), distance, 8), available, currentPrice);
    }
  }

  /** A size no larger than the capital over the price, rounded down, is worth at most that capital. */
  lemma CappedByCapital(sized: real, available: real, price: real)
    requires available >= 0.0 && price > 0.0
    ensures Min(sized, DivDown(available, price, 8)) * price <= available
  {
    var size := Min(sized, DivDown(available, price, 8));
    DivLe(0.0, available, price);
    RoundDownBounds(available / price, 8);
    assert size <= available / price;
    MulLe(size, available / price, price);
    assert available / price * price == available;
  }

  /** Rounding toward zero never gives more than the exact quotient, unlike half-up. */
  lemma PositionSizeRoundsDown(config: TradingConfig, signal: Signal, currentPrice: real)
    requires PositionSize(config, signal, currentPrice).Success? && signal.stopLoss.Some?
    requires currentPrice != signal.stopLoss.value && RiskAmount(config, signal.strategy) >= 0.0
    ensures PositionSize(config, signal, currentPrice).value
      <= RiskAmount(config, signal.strategy) / Abs(currentPrice - signal.stopLoss.value)
  {
    var distance := Abs(currentPrice - signal.stopLoss.value);
    DivLe(0.0, RiskAmount(config, signal.strategy), distance);
    RoundDownBounds(RiskAmount(config, signal.strategy) / distance, 8);
  }

  /**
    checkRiskLimits: the open exposure over the balance, half-up to 8 places, is
    strictly below 1 − maxDrawdown. A zero balance throws.
   */
  function CheckRiskLimits(config: TradingConfig, positions: seq<Position>): (r: Result<bool, Fault>)
    ensures r.Failure? <==> config.accountBalance == 0.0
  {
    if config.accountBalance == 0.0 then Failure(DivisionByZero)
    else
      var ratio := DivHalfUp(RiskManagement.CurrentExposure(positions), config.accountBalance, 8);
      Success(ratio < 1.0 - config.maxDrawdown)
  }

  /** With nothing open the limit holds exactly when the drawdown allowance is below 1. */
  lemma NothingOpenWithinLimits(config: TradingConfig, positions: seq<Position>)
    requires config.accountBalance != 0.0
    requires forall p :: p in positions ==> !p.isOpen
    ensures CheckRiskLimits(config, positions) == Success(config.maxDrawdown < 1.0)
  {
    var e := RiskManagement.Exposures(positions);
    assert forall i :: 0 <= i < |e| ==> e[i] == 0.0;
    SumConstant(e, 0.0);
    assert Scaled(0.0, 8) == 0.0;
    RoundHalfUpExact(0.0, 8);
  }

  // ---------------------------------------------------------------- per-strategy profit

  /**
    The groupingBy/reducing collector over a list of closed positions: each
    strategy maps to zero plus its positions' profits. A null profit throws.
   */
  function Performance(closed: seq<Position>): (r: Result<map<Strategy, real>, Fault>)
    ensures r.Failure? <==> exists i :: 0 <= i < |closed| && closed[i].profit.None?
  {
    if |closed| == 0 then Success(map[])
    else
      var prefix := closed[..|closed| - 1];
      var p := closed[|closed| - 1];
      assert forall i :: 0 <= i < |prefix| ==> prefix[i] == closed[i];
      var m :- Performance(prefix);
      if p.profit.None? then Failure(NullPointer)
      else Success(AddProfit(m, p))
  }

  /** One reduction step: the position's profit added to its strategy's running total. */
  function AddProfit(m: map<Strategy, real>, p: Position): (r: map<Strategy, real>)
    requires p.profit.Some?
    ensures r.Keys == m.Keys + {p.strategy}
    ensures forall s :: s in m && s != p.strategy ==> r[s] == m[s]
  {
    var before := if p.strategy in m then m[p.strategy] else 0.0;
    m[p.strategy := before + p.profit.value]
  }

  /** getStrategyPerformance: the collector over the closed positions. */
  function StrategyPerformance(positions: seq<Position>): Result<map<Strategy, real>, Fault> {
    Performance(WithOpen(positions, false))
  }

  /** The profits of `strategy`'s positions, zero in place of the other strategies'. */
  function ProfitsOf(closed: seq<Position>, strategy: Strategy): (r: seq<real>)
    requires forall i :: 0 <= i < |closed| ==> closed[i].profit.Some?
    ensures |r| == |closed|
    ensures forall i :: 0 <= i < |closed| ==>
      r[i] == if closed[i].strategy == strategy then closed[i].profit.value else 0.0
  {
    seq(|closed|, i requires 0 <= i < |closed| =>
      if closed[i].strategy == strategy then closed[i].profit.value else 0.0)
  }

  lemma ProfitsOfLast(closed: seq<Position>, strategy: Strategy)
    requires |closed| > 0 && forall i :: 0 <= i < |closed| ==> closed[i].profit.Some?
    ensures var p := closed[|closed| - 1];
      Sum(ProfitsOf(closed, strategy)) == Sum(ProfitsOf(closed[..|closed| - 1], strategy))
        + (if p.strategy == strategy then p.profit.value else 0.0)
  {
    var prefix := closed[..|closed| - 1];
    var last := ProfitsOf(closed, strategy)[|closed| - 1];
    assert ProfitsOf(closed, strategy) == ProfitsOf(prefix, strategy) + [last];
    SumAppend(ProfitsOf(prefix, strategy), last);
  }

  lemma ProfitsOfAbsent(closed: seq<Position>, strategy: Strategy)
    requires forall i :: 0 <= i < |closed| ==> closed[i].profit.Some? && closed[i].strategy != strategy
    ensures Sum(ProfitsOf(closed, strategy)) == 0.0
  {
    SumConstant(ProfitsOf(closed, strategy), 0.0);
  }

  /** Some position in the list belongs to `strategy`. */
  predicate Occurs(closed: seq<Position>, strategy: Strategy) {
    exists i :: 0 <= i < |closed| && closed[i].strategy == strategy
  }

  lemma OccursLast(closed: seq<Position>, strategy: Strategy)
    requires |closed| > 0
    ensures Occurs(closed, strategy) <==>
      Occurs(closed[..|closed| - 1], strategy) || closed[|closed| - 1].strategy == strategy
  {
    var prefix := closed[..|closed| - 1];
    if Occurs(closed, strategy) && closed[|closed| - 1].strategy != strategy {
      var i :| 0 <= i < |closed| && closed[i].strategy == strategy;
      assert prefix[i].strategy == strategy;
    }
    if Occurs(prefix, strategy) {
      var i :| 0 <= i < |prefix| && prefix[i].strategy == strategy;
      assert closed[i].strategy == strategy;
    }
  }

  /** The collector succeeds once every profit is present, with a key for exactly the strategies that occur. */
  lemma {:induction false} PerformanceKeys(closed: seq<Position>)
    requires forall i :: 0 <= i < |closed| ==> closed[i].profit.Some?
    ensures Performance(closed).Success?
    ensures forall s :: s in Performance(closed).value <==> Occurs(closed, s)
  {
    if |closed| > 0 {
      var prefix := closed[..|closed| - 1];
      var p := closed[|closed| - 1];
      assert forall i :: 0 <= i < |prefix| ==> prefix[i] == closed[i];
      PerformanceKeys(prefix);
      var m := Performance(prefix).value;
      var r := AddProfit(m, p);
      assert Performance(closed) == Success(r);
      forall s
        ensures s in r <==> Occurs(closed, s)
      {
        OccursLast(closed, s);
      }
    }
  }

  /**
    The grouping has a key for exactly the strategies that occur, and each maps
    to the sum of its positions' profits.
   */
  lemma {:induction false} PerformanceIsGroupSum(closed: seq<Position>)
    requires forall i :: 0 <= i < |closed| ==> closed[i].profit.Some?
    ensures Performance(closed).Success?
    ensures forall s :: s in Performance(closed).value <==> Occurs(closed, s)
    ensures forall s :: s in Performance(closed).value ==> Performance(closed).value[s] == Sum(ProfitsOf(closed, s))
  {
    PerformanceKeys(closed);
    if |closed| > 0 {
      var prefix := closed[..|closed| - 1];
      var p := closed[|closed| - 1];
      assert forall i :: 0 <= i < |prefix| ==> prefix[i] == closed[i];
      PerformanceIsGroupSum(prefix);
      var m := Performance(prefix).value;
      var r := AddProfit(m, p);
      assert Performance(closed) == Success(r);
      forall s | s in r
        ensures r[s] == Sum(ProfitsOf(closed, s))
      {
        ProfitsOfLast(closed, s);
        if s !in m {
          ProfitsOfAbsent(prefix, s);
        }
      }
    }
  }
}
