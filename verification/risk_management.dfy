/**
  RiskManagementService: position sizing with a 10%-of-balance cap, the
  position-count limit, exposure, the checks a signal must pass before a
  position is opened, and the ATR trailing stop.
 */
module RiskManagement {
  import opened Wrappers
  import opened Decimal
  import opened Series
  import opened Domain
  import opened Indicators
  import opened Repository

  /** `trading.risk-per-trade` and `trading.max-positions`. */
  datatype RiskSettings = RiskSettings(riskPerTrade: real, maxPositions: int)

  /** maxPositionValue / price: the 10%-of-balance cap, half-up to 8 places. */
  function MaxPositionSize(balance: real, price: real): real
    requires price != 0.0
  {
    DivHalfUp(balance * 0.1, price, 8)
  }

  /** riskAmount / riskPerUnit, half-up to 8 places. */
  function RiskedSize(balance: real, riskPerTrade: real, price: real, stop: real): real
    requires price != stop
  {
    DivHalfUp(balance * riskPerTrade, Abs(price - stop), 8)
  }

  /**
    calculatePositionSize. Without a stop the size is zero; a missing price
    throws, and so does a stop at the price or a zero price (division by zero).
   */
  function PositionSize(signal: Signal, balance: real, riskPerTrade: real): (r: Result<real, Fault>)
    ensures signal.stopLoss.None? ==> r == Success(0.0)
    ensures r.Failure? <==> (signal.stopLoss.Some? &&
      (signal.price.None? || signal.price.value == signal.stopLoss.value || signal.price.value == 0.0))
  {
    if signal.stopLoss.None? then Success(0.0)
    else if signal.price.None? then Failure(NullPointer)
    else
      var price := signal.price.value;
      var stop := signal.stopLoss.value;
      if Abs(price - stop) == 0.0 || price == 0.0 then Failure(DivisionByZero)
      else Success(Min(RiskedSize(balance, riskPerTrade, price, stop), MaxPositionSize(balance, price)))
  }

  /**
    A size is the smaller of the risked size and the cap: never above the 10%
    cap, and equal to the risked size whenever that is within the cap.
   */
  lemma PositionSizeCapped(signal: Signal, balance: real, riskPerTrade: real)
    requires PositionSize(signal, balance, riskPerTrade).Success? && signal.stopLoss.Some?
    ensures var r := PositionSize(signal, balance, riskPerTrade).value;
      var price := signal.price.value;
      var risked := RiskedSize(balance, riskPerTrade, price, signal.stopLoss.value);
      && r <= MaxPositionSize(balance, price)
      && r <= risked
      && (r == risked || r == MaxPositionSize(balance, price))
  {
  }

  /**
    A balance of 10000 risking 1% on a signal at 50000 with its stop at 49000
    risks 0.1 units, but the cap allows only 10% of 10000 / 50000 = 0.02.
   */
  lemma PositionSizeScenario()
    ensures PositionSize(Signal(Buy, TrendFollowing, Some(50000.0), Some(49000.0), None, None, ""), 10000.0, 0.01)
      == Success(0.02)
  {
    assert Scaled(0.1, 8) == 10000000.0;
    RoundHalfUpExact(0.1, 8);
    assert RiskedSize(10000.0, 0.01, 50000.0, 49000.0) == 0.1;
    assert Scaled(0.02, 8) == 2000000.0;
    RoundHalfUpExact(0.02, 8);
    assert MaxPositionSize(10000.0, 50000.0) == 0.02;
  }

  // ---------------------------------------------------------------- limits

  /** The open positions of the book, as findByIsOpen(true) lists them. */
  function OpenPositions(positions: seq<Position>): seq<Position> {
    WithOpen(positions, true)
  }

  /** canOpenPosition: fewer open positions than the limit. */
  predicate CanOpenPosition(positions: seq<Position>, maxPositions: int) {
    |OpenPositions(positions)| < maxPositions
  }

  /** Opening a position adds it to the open ones, closing one removes it. */
  lemma OpenCountAfterInsert(positions: seq<Position>, p: Position)
    ensures p.isOpen ==> OpenPositions(positions + [p]) == OpenPositions(positions) + [p]
    ensures !p.isOpen ==> OpenPositions(positions + [p]) == OpenPositions(positions)
  {
    assert (positions + [p])[..|positions|] == positions;
  }

  /**
    Once as many positions are open as the limit allows, no further one can be
    opened until one is closed.
   */
  lemma LimitReachedAfterOpening(positions: seq<Position>, p: Position, maxPositions: int)
    requires p.isOpen && |OpenPositions(positions)| + 1 == maxPositions
    ensures CanOpenPosition(positions, maxPositions)
    ensures !CanOpenPosition(positions + [p], maxPositions)
  {
    OpenCountAfterInsert(positions, p);
  }

  function ExposureOf(p: Position): real {
    if p.isOpen then p.quantity * p.entryPrice else 0.0
  }

  function Exposures(positions: seq<Position>): (r: seq<real>)
    ensures |r| == |positions|
    ensures forall i :: 0 <= i < |positions| ==> r[i] == ExposureOf(positions[i])
  {
    seq(|positions|, i requires 0 <= i < |positions| => ExposureOf(positions[i]))
  }

  /** getCurrentExposure: Σ quantity × entry over the open positions. */
  function CurrentExposure(positions: seq<Position>): real {
    Sum(Exposures(positions))
  }

  /**
    Exposure is never negative for non-negative quantities and prices, and
    closing a position takes exactly its notional out of it.
   */
  lemma ExposureFacts(positions: seq<Position>, k: nat, closed: Position)
    requires k < |positions| && positions[k].isOpen && !closed.isOpen
    requires forall p :: p in positions ==> p.quantity >= 0.0 && p.entryPrice >= 0.0
    ensures CurrentExposure(positions) >= 0.0
    ensures CurrentExposure(positions[k := closed])
      == CurrentExposure(positions) - positions[k].quantity * positions[k].entryPrice
  {
    var e := Exposures(positions);
    ExposuresNonNegative(positions);
    SumNonNegative(e);
    ClosingClearsExposure(positions, k, closed);
    SumUpdate(e, k, 0.0);
  }

  lemma ExposuresNonNegative(positions: seq<Position>)
    requires forall p :: p in positions ==> p.quantity >= 0.0 && p.entryPrice >= 0.0
    ensures forall i :: 0 <= i < |Exposures(positions)| ==> Exposures(positions)[i] >= 0.0
  {
    var e := Exposures(positions);
    forall i | 0 <= i < |e|
      ensures e[i] >= 0.0
    {
      var p := positions[i];
      assert p in positions;
      MulLe(0.0, p.quantity, p.entryPrice);
    }
  }

  lemma ClosingClearsExposure(positions: seq<Position>, k: nat, closed: Position)
    requires k < |positions| && !closed.isOpen
    ensures Exposures(positions[k := closed]) == Exposures(positions)[k := 0.0]
  {
  }

  // ---------------------------------------------------------------- signal validation

  /** How many of `positions` belong to `strategy`. */
  function CountStrategy(positions: seq<Position>, strategy: Strategy): (n: nat)
    ensures n <= |positions|
  {
    if |positions| == 0 then 0
    else
      var hit := if positions[|positions| - 1].strategy == strategy then 1 else 0;
      CountStrategy(positions[..|positions| - 1], strategy) + hit
  }

  /** round2(|target − price| / |price − stop|), the reward-to-risk ratio. */
  function RewardRatio(price: real, stop: real, target: real): real
    requires price != stop
  {
    DivHalfUp(Abs(target - price), Abs(price - stop), 2)
  }

  /**
    validateSignal: rejects a signal without a stop, one whose target (when it
    has one) pays less than 1.5 times the risk, and one whose strategy already
    has two open positions. With a target, a missing price throws, and so does
    a stop at the price.
   */
  function ValidateSignal(signal: Signal, positions: seq<Position>): (r: Result<bool, Fault>) {
    if signal.stopLoss.None? then Success(false)
    else if signal.takeProfit.Some? && signal.price.None? then Failure(NullPointer)
    else if signal.takeProfit.Some? && signal.price.value == signal.stopLoss.value then Failure(DivisionByZero)
    else if signal.takeProfit.Some?
      && RewardRatio(signal.price.value, signal.stopLoss.value, signal.takeProfit.value) < 1.5 then Success(false)
    else Success(CountStrategy(OpenPositions(positions), signal.strategy) < 2)
  }

  /**
    A signal passes exactly when it has a stop, its target (if any) pays at least
    1.5 times the risk, and its strategy has fewer than two open positions. The
    ratio is only computed when there is a target.
   */
  lemma ValidateSignalIff(signal: Signal, positions: seq<Position>)
    ensures ValidateSignal(signal, positions) == Success(true) <==>
      && signal.stopLoss.Some?
      && (signal.takeProfit.Some? ==>
        signal.price.Some? && signal.price.value != signal.stopLoss.value
        && RewardRatio(signal.price.value, signal.stopLoss.value, signal.takeProfit.value) >= 1.5)
      && CountStrategy(OpenPositions(positions), signal.strategy) < 2
    ensures ValidateSignal(signal, positions).Failure? <==>
      signal.stopLoss.Some? && signal.takeProfit.Some? &&
      (signal.price.None? || signal.price.value == signal.stopLoss.value)
    ensures signal.takeProfit.None? ==> ValidateSignal(signal, positions).Success?
  {
  }

  // ---------------------------------------------------------------- trailing stops

  /** The period of the ATR behind the trailing stop. */
  const TrailingAtrPeriod: nat := 14

  /** 1.5 ATR, the distance the stop trails the price by. */
  function TrailDistance(atr: real): real {
    atr * 1.5
  }

  /**
    calculateTrailingStop: 1.5 ATR below the price, or the current stop when
    there are too few bars for an ATR.
   */
  function TrailingStop(p: Position, price: real, atr: Option<real>): Option<real> {
    if atr.None? then p.stopLoss else Some(price - TrailDistance(atr.value))
  }

  /** A position the loop looks at: open and in profit at the price. */
  predicate InProfit(p: Position, price: real) {
    p.isOpen && price > p.entryPrice
  }

  /** An open profitable position without a stop: comparing with its stop throws. */
  predicate TrailFault(p: Position, price: real) {
    InProfit(p, price) && p.stopLoss.None?
  }

  /** One position after the update: its stop raised to the trailing stop if that is higher. */
  function Trailed(p: Position, price: real, atr: Option<real>): Position {
    if InProfit(p, price) && p.stopLoss.Some? && TrailingStop(p, price, atr).Some?
      && TrailingStop(p, price, atr).value > p.stopLoss.value
    then p.(stopLoss := TrailingStop(p, price, atr))
    else p
  }

  /** The index of the first position the update throws on, or the length of the book. */
  function FirstTrailFault(positions: seq<Position>, price: real): (k: nat)
    ensures k <= |positions|
    ensures forall j :: 0 <= j < k ==> !TrailFault(positions[j], price)
    ensures k < |positions| ==> TrailFault(positions[k], price)
  {
    if |positions| == 0 then 0
    else
      var k := FirstTrailFault(positions[..|positions| - 1], price);
      assert forall j :: 0 <= j < |positions| - 1 ==> positions[..|positions| - 1][j] == positions[j];
      if k < |positions| - 1 then k
      else if TrailFault(positions[|positions| - 1], price) then |positions| - 1
      else |positions|
  }

  function TrailedUpTo(positions: seq<Position>, k: int, price: real, atr: Option<real>): (r: seq<Position>)
    ensures |r| == |positions|
  {
    seq(|positions|, j requires 0 <= j < |positions| =>
      if j < k then Trailed(positions[j], price, atr) else positions[j])
  }

  /** The book after updateTrailingStops at `price` with the given ATR. */
  function TrailStops(positions: seq<Position>, price: real, atr: Option<real>): seq<Position> {
    TrailedUpTo(positions, FirstTrailFault(positions, price), price, atr)
  }

  /** The loop of updateTrailingStops, at a given price and ATR. */
  method TrailAll(repo: PositionRepository, price: real, atr: Option<real>) returns (fault: Option<Fault>)
    requires repo.Valid()
    modifies repo
    ensures repo.Valid()
    ensures repo.positions == TrailStops(old(repo.positions), price, atr)
    ensures fault.Some? <==> FirstTrailFault(old(repo.positions), price) < |old(repo.positions)|
    ensures fault.Some? ==> fault.value == NullPointer
  {
    ghost var start := repo.positions;
    var i := 0;
    while i < |repo.positions|
      invariant repo.Valid() && |repo.positions| == |start|
      invariant 0 <= i <= |start| && i <= FirstTrailFault(start, price)
      invariant repo.positions == TrailedUpTo(start, i, price, atr)
    {
      var p := repo.positions[i];
      assert p == start[i];
      if InProfit(p, price) {
        if p.stopLoss.None? {
          assert repo.positions == TrailStops(start, price, atr);
          return Some(NullPointer);
        }
        var newStop := TrailingStop(p, price, atr);
        if newStop.value > p.stopLoss.value {
          repo.Update(p.(stopLoss := newStop));
        }
      }
      assert repo.positions == TrailedUpTo(start, i + 1, price, atr);
      i := i + 1;
    }
    fault := None;
  }

  /**
    updateTrailingStops. The price is the last close; the 14-period ATR of the
    whole window is the same for every position, so it is computed once. No bars
    at all throws before anything changes.
   */
  method UpdateTrailingStops(repo: PositionRepository, bars: seq<Bar>) returns (fault: Option<Fault>)
    requires repo.Valid()
    modifies repo
    ensures repo.Valid()
    ensures |bars| == 0 ==> fault == Some(IndexOutOfBounds) && repo.positions == old(repo.positions)
    ensures |bars| > 0 ==>
      && repo.positions == TrailStops(old(repo.positions), bars[|bars| - 1].close, Atr(bars, TrailingAtrPeriod))
      && (fault.Some? <==> FirstTrailFault(old(repo.positions), bars[|bars| - 1].close) < |old(repo.positions)|)
      && (fault.Some? ==> fault.value == NullPointer)
  {
    if |bars| == 0 {
      return Some(IndexOutOfBounds);
    }
    var atr := CalculateAtr(bars, TrailingAtrPeriod);
    fault := TrailAll(repo, bars[|bars| - 1].close, atr);
  }

  /**
    The update only ever raises a stop, and only on an open position in profit;
    it changes nothing but the stop, and a raised stop is 1.5 ATR below the price.
   */
  lemma TrailingOnlyRaises(positions: seq<Position>, price: real, atr: Option<real>, i: int)
    requires 0 <= i < |positions|
    ensures var before := positions[i]; var after := TrailStops(positions, price, atr)[i];
      && after == before.(stopLoss := after.stopLoss)
      && (after.stopLoss != before.stopLoss ==>
        && InProfit(before, price) && atr.Some?
        && before.stopLoss.Some? && after.stopLoss.Some?
        && after.stopLoss.value > before.stopLoss.value
        && after.stopLoss.value == price - TrailDistance(atr.value))
  {
  }

  /** With a non-negative ATR a raised stop stays at or below the price. */
  lemma TrailedStopBelowPrice(p: Position, price: real, atr: Option<real>)
    requires atr.Some? ==> atr.value >= 0.0
    requires Trailed(p, price, atr) != p
    ensures Trailed(p, price, atr).stopLoss.value <= price
  {
  }
}
