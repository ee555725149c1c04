/**
  TradingEngine: one trading cycle over the latest window of bars. It checks
  stops and targets, trails the stops, asks the enabled analyzers, picks the
  most confident signal and acts on it: a BUY opens a position when the risk
  checks pass, a SELL closes the open positions of the same strategy. Outside
  live trading nothing is opened or closed by a signal.
 */
module TradingEngine {
  import opened Wrappers
  import opened Domain
  import opened Repository
  import opened PositionManagement
  import opened RiskManagement
  import opened SignalSelection
  import Indicators

  /** The engine's configuration. */
  datatype EngineSettings = EngineSettings(
    risk: RiskSettings,
    enabled: Enabled,
    liveTrading: bool,
    strategies: StrategyParams)

  /**
    How a cycle ends. An exception thrown inside the cycle is caught and logged;
    whatever the cycle changed before it stays changed.
   */
  datatype CycleOutcome = NoMarketData | Completed | Aborted(fault: Fault)

  // ---------------------------------------------------------------- BUY

  /**
    The BUY decision: nothing when the position limit is reached or the signal
    fails validation, the fault when validation or sizing throws, otherwise the
    size to buy when it is positive.
   */
  function BuyOrder(signal: Signal, positions: seq<Position>, balance: real, risk: RiskSettings): (r: Result<Option<real>, Fault>)
    ensures r.Success? && r.value.Some? ==>
      && CanOpenPosition(positions, risk.maxPositions)
      && ValidateSignal(signal, positions) == Success(true)
      && PositionSize(signal, balance, risk.riskPerTrade) == Success(r.value.value)
      && r.value.value > 0.0
      && signal.price.Some? && signal.stopLoss.Some?
  {
    if !CanOpenPosition(positions, risk.maxPositions) then Success(None)
    else
      var valid :- ValidateSignal(signal, positions);
      if !valid then Success(None)
      else
        var size :- PositionSize(signal, balance, risk.riskPerTrade);
        if size > 0.0 then Success(Some(size)) else Success(None)
  }

  /** A BUY that the guards let through is sized from a real stop at a real price. */
  lemma BuyOrderIff(signal: Signal, positions: seq<Position>, balance: real, risk: RiskSettings)
    ensures BuyOrder(signal, positions, balance, risk).Success? && BuyOrder(signal, positions, balance, risk).value.Some?
      <==> (&& CanOpenPosition(positions, risk.maxPositions)
            && ValidateSignal(signal, positions) == Success(true)
            && PositionSize(signal, balance, risk.riskPerTrade).Success?
            && PositionSize(signal, balance, risk.riskPerTrade).value > 0.0)
    ensures !CanOpenPosition(positions, risk.maxPositions) ==> BuyOrder(signal, positions, balance, risk) == Success(None)
  {
  }

  // ---------------------------------------------------------------- SELL

  /** An open position of the signal's strategy, which a SELL closes. */
  predicate Matches(p: Position, strategy: Strategy) {
    p.isOpen && p.strategy == strategy
  }

  /** The first `k` rows with the matching positions closed, the rest untouched. */
  function ClosedUpTo(positions: seq<Position>, k: int, strategy: Strategy, price: real, now: int): (r: seq<Position>)
    ensures |r| == |positions|
  {
    seq(|positions|, j requires 0 <= j < |positions| =>
      if j < k && Matches(positions[j], strategy) then Closed(positions[j], price, now) else positions[j])
  }

  /** The book after a SELL: every open position of the strategy closed at the price. */
  function CloseStrategy(positions: seq<Position>, strategy: Strategy, price: real, now: int): seq<Position> {
    ClosedUpTo(positions, |positions|, strategy, price, now)
  }

  /**
    The SELL loop over the open positions. The source walks a snapshot of the
    open positions in id order; closing one leaves the others as they are, so
    walking every row and skipping the closed ones does the same.
   */
  method CloseStrategyPositions(repo: PositionRepository, strategy: Strategy, price: real, now: int)
    requires repo.Valid()
    modifies repo
    ensures repo.Valid()
    ensures repo.positions == CloseStrategy(old(repo.positions), strategy, price, now)
  {
    ghost var start := repo.positions;
    var i := 0;
    while i < |repo.positions|
      invariant repo.Valid() && |repo.positions| == |start|
      invariant 0 <= i <= |start|
      invariant repo.positions == ClosedUpTo(start, i, strategy, price, now)
    {
      var p := repo.positions[i];
      assert p == start[i];
      if p.isOpen && p.strategy == strategy {
        var closed := ClosePosition(repo, p.id, price, now);
      }
      assert repo.positions == ClosedUpTo(start, i + 1, strategy, price, now);
      i := i + 1;
    }
  }

  /**
    A SELL closes exactly the open positions of its strategy, each at the price,
    and leaves every other row as it was.
   */
  lemma CloseStrategyExactly(positions: seq<Position>, strategy: Strategy, price: real, now: int, i: int)
    requires 0 <= i < |positions|
    ensures var after := CloseStrategy(positions, strategy, price, now)[i];
      Matches(positions[i], strategy) ==>
        (!after.isOpen && after.exitPrice == Some(price) && after.profit == Some(Profit(positions[i], price)))
    ensures !Matches(positions[i], strategy) ==> CloseStrategy(positions, strategy, price, now)[i] == positions[i]
    ensures !Matches(CloseStrategy(positions, strategy, price, now)[i], strategy)
  {
  }

  // ---------------------------------------------------------------- processSignal

  /**
    processSignal as a value: the fault it throws, if any, and the book after it.
    Order placement happens only in live trading.
   */
  function Process(positions: seq<Position>, signal: Signal, price: real, balance: real,
                   settings: EngineSettings, now: int): (Option<Fault>, seq<Position>)
  {
    match signal.kind
    case Buy =>
      (match BuyOrder(signal, positions, balance, settings.risk)
       case Failure(e) => (Some(e), positions)
       case Success(None) => (None, positions)
       case Success(Some(size)) =>
         if settings.liveTrading then (None, positions + [Opened(signal, size, |positions| + 1, now)])
         else (None, positions))
    case Sell =>
      (None, if settings.liveTrading then CloseStrategy(positions, signal.strategy, price, now) else positions)
    case Hold => (None, positions)
  }

  /** processSignal. */
  method ProcessSignal(repo: PositionRepository, signal: Signal, price: real, balance: real,
                       settings: EngineSettings, now: int) returns (fault: Option<Fault>)
    requires repo.Valid()
    modifies repo
    ensures repo.Valid()
    ensures (fault, repo.positions) == Process(old(repo.positions), signal, price, balance, settings, now)
  {
    fault := None;
    if signal.kind == Buy {
      if !CanOpenPosition(repo.positions, settings.risk.maxPositions) {
        return;
      }
      var valid := ValidateSignal(signal, repo.positions);
      if valid.Failure? {
        return Some(valid.error);
      }
      if !valid.value {
        return;
      }
      var size := PositionSize(signal, balance, settings.risk.riskPerTrade);
      if size.Failure? {
        return Some(size.error);
      }
      if size.value > 0.0 && settings.liveTrading {
        var saved := OpenPosition(repo, signal, size.value, now);
      }
    } else if signal.kind == Sell {
      if settings.liveTrading {
        CloseStrategyPositions(repo, signal.strategy, price, now);
      }
    }
  }

  /**
    processSignal opens at most one position, and only for a live BUY that
    passed every guard; the rows already in the book are then left alone.
   */
  lemma ProcessOpensOnlyGuardedBuys(positions: seq<Position>, signal: Signal, price: real, balance: real,
                                    settings: EngineSettings, now: int)
    ensures var after := Process(positions, signal, price, balance, settings, now).1;
      |after| == |positions| || |after| == |positions| + 1
    ensures var after := Process(positions, signal, price, balance, settings, now).1;
      |after| == |positions| + 1 ==>
        && signal.kind == Buy && settings.liveTrading
        && BuyOrder(signal, positions, balance, settings.risk).Success?
        && BuyOrder(signal, positions, balance, settings.risk).value.Some?
        && after[..|positions|] == positions
        && after[|positions|] == Opened(signal, BuyOrder(signal, positions, balance, settings.risk).value.value, |positions| + 1, now)
  {
    var after := Process(positions, signal, price, balance, settings, now).1;
    if |after| == |positions| + 1 {
      assert after[..|positions|] == positions;
    }
  }

  /** Outside live trading a signal never changes the book. */
  lemma SimulationLeavesBook(positions: seq<Position>, signal: Signal, price: real, balance: real,
                             settings: EngineSettings, now: int)
    requires !settings.liveTrading
    ensures Process(positions, signal, price, balance, settings, now).1 == positions
  {
  }

  // ---------------------------------------------------------------- the cycle

  /**
    The two checks at the start of a cycle: stops and targets at the price, then
    the trailing stops. The first fault ends them with what was changed before it.
   */
  function Checks(positions: seq<Position>, price: real, atr: Option<real>, now: int): (Option<Fault>, seq<Position>) {
    var checked := CheckStops(positions, price, now);
    if FirstNullStop(positions) < |positions| then (Some(NullPointer), checked)
    else
      var trailed := TrailStops(checked, price, atr);
      if FirstTrailFault(checked, price) < |checked| then (Some(NullPointer), trailed)
      else (None, trailed)
  }

  /** The checks keep every row in place and never open a position. */
  lemma ChecksOnlyClose(positions: seq<Position>, price: real, atr: Option<real>, now: int)
    ensures var after := Checks(positions, price, atr, now).1;
      |after| == |positions| && forall i :: 0 <= i < |after| ==> after[i].isOpen ==> positions[i].isOpen
  {
    var checked := CheckStops(positions, price, now);
    var trailed := TrailStops(checked, price, atr);
    assert forall i :: 0 <= i < |trailed| ==> trailed[i].isOpen == checked[i].isOpen;
  }

  /** What the selected signal leads to, once the checks and the analyzers have not thrown. */
  function Act(positions: seq<Position>, best: Option<Signal>, price: real, balance: real,
               settings: EngineSettings, now: int): (CycleOutcome, seq<Position>)
  {
    if best.None? || best.value.kind == Hold then (Completed, positions)
    else
      var processed := Process(positions, best.value, price, balance, settings, now);
      (if processed.0.Some? then Aborted(processed.0.value) else Completed, processed.1)
  }

  /**
    The cycle over already computed inputs: the last close, the 14-period ATR of
    the window and the analyzers' signals. A fault ends the cycle with what was
    changed before it.
   */
  function CycleFrom(positions: seq<Position>, price: real, atr: Option<real>,
                     signals: Result<seq<Signal>, Fault>, balance: real,
                     settings: EngineSettings, now: int): (CycleOutcome, seq<Position>)
  {
    var checks := Checks(positions, price, atr, now);
    if checks.0.Some? then (Aborted(checks.0.value), checks.1)
    else if signals.Failure? then (Aborted(signals.error), checks.1)
    else Act(checks.1, SelectBestSignal(signals.value), price, balance, settings, now)
  }

  /**
    executeTradingCycle on the window `bars` fetched for the symbol. No bars
    leaves everything as it was.
   */
  method ExecuteTradingCycle(repo: PositionRepository, bars: seq<Bar>, balance: real,
                             settings: EngineSettings, now: int) returns (outcome: CycleOutcome)
    requires repo.Valid()
    modifies repo
    ensures repo.Valid()
    ensures |bars| == 0 ==> outcome == NoMarketData && repo.positions == old(repo.positions)
    ensures |bars| > 0 ==>
      (outcome, repo.positions) == CycleFrom(old(repo.positions), bars[|bars| - 1].close,
        Indicators.Atr(bars, TrailingAtrPeriod), GenerateSignals(settings.enabled, settings.strategies, bars),
        balance, settings, now)
  {
    if |bars| == 0 {
      return NoMarketData;
    }
    var price := bars[|bars| - 1].close;
    ghost var start := repo.positions;
    var stopFault := CheckStopLossAndTakeProfit(repo, price, now);
    if stopFault.Some? {
      return Aborted(stopFault.value);
    }
    ghost var checked := repo.positions;
    var trailFault := UpdateTrailingStops(repo, bars);
    if trailFault.Some? {
      return Aborted(trailFault.value);
    }
    var signals := GenerateSignals(settings.enabled, settings.strategies, bars);
    if signals.Failure? {
      return Aborted(signals.error);
    }
    var best := SelectBestSignal(signals.value);
    outcome := Completed;
    if best.Some? && best.value.kind != Hold {
      var fault := ProcessSignal(repo, best.value, price, balance, settings, now);
      if fault.Some? {
        outcome := Aborted(fault.value);
      }
    }
  }

  // ---------------------------------------------------------------- the position limit

  /** Closing positions or changing their stops never adds to the open ones. */
  lemma {:induction false} OpenCountMonotone(before: seq<Position>, after: seq<Position>)
    requires |before| == |after|
    requires forall i :: 0 <= i < |after| ==> after[i].isOpen ==> before[i].isOpen
    ensures |OpenPositions(after)| <= |OpenPositions(before)|
  {
    if |before| > 0 {
      var n := |before| - 1;
      assert forall i :: 0 <= i < n ==> after[..n][i] == after[i] && before[..n][i] == before[i];
      OpenCountMonotone(before[..n], after[..n]);
    }
  }

  /**
    A cycle that starts within the position limit ends within it: the checks
    only close positions and move stops, and a BUY opens one only below the
    limit.
   */
  lemma CycleKeepsPositionLimit(positions: seq<Position>, price: real, atr: Option<real>,
                                signals: Result<seq<Signal>, Fault>, balance: real,
                                settings: EngineSettings, now: int)
    requires |OpenPositions(positions)| <= settings.risk.maxPositions
    ensures |OpenPositions(CycleFrom(positions, price, atr, signals, balance, settings, now).1)| <= settings.risk.maxPositions
  {
    var checks := Checks(positions, price, atr, now);
    ChecksOnlyClose(positions, price, atr, now);
    OpenCountMonotone(positions, checks.1);
    if checks.0.None? && signals.Success? {
      var best := SelectBestSignal(signals.value);
      if best.Some? && best.value.kind != Hold {
        ProcessKeepsPositionLimit(checks.1, best.value, price, balance, settings, now);
      }
    }
  }

  lemma ProcessKeepsPositionLimit(positions: seq<Position>, signal: Signal, price: real, balance: real,
                                  settings: EngineSettings, now: int)
    requires |OpenPositions(positions)| <= settings.risk.maxPositions
    ensures |OpenPositions(Process(positions, signal, price, balance, settings, now).1)| <= settings.risk.maxPositions
  {
    var after := Process(positions, signal, price, balance, settings, now).1;
    if signal.kind == Sell && settings.liveTrading {
      OpenCountMonotone(positions, after);
    } else if |after| == |positions| + 1 {
      ProcessOpensOnlyGuardedBuys(positions, signal, price, balance, settings, now);
      OpenCountAfterInsert(positions, after[|positions|]);
      assert after == positions + [after[|positions|]];
    }
  }

  /** Outside live trading a cycle only closes triggered positions and moves stops. */
  lemma SimulationCycle(positions: seq<Position>, price: real, atr: Option<real>,
                        signals: Result<seq<Signal>, Fault>, balance: real,
                        settings: EngineSettings, now: int)
    requires !settings.liveTrading
    ensures CycleFrom(positions, price, atr, signals, balance, settings, now).1 == Checks(positions, price, atr, now).1
  {
    var checks := Checks(positions, price, atr, now);
    if checks.0.None? && signals.Success? {
      var best := SelectBestSignal(signals.value);
      if best.Some? && best.value.kind != Hold {
        SimulationLeavesBook(checks.1, best.value, price, balance, settings, now);
      }
    }
  }
}
