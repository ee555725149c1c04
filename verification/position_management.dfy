/**
  PositionManagementService: opening and closing positions of the live book,
  closing the ones whose stop or target the price has reached, and the realised
  and unrealised profit of the book. Order placement on the exchange is not part
  of this model.
 */
module PositionManagement {
  import opened Wrappers
  import opened Series
  import opened Domain
  import opened Repository

  /** Every position is opened on this symbol. */
  const Symbol := "BTCUSDT"

  /** (exit − entry) × quantity. */
  function Profit(p: Position, exitPrice: real): real {
    (exitPrice - p.entryPrice) * p.quantity
  }

  /** The position as closePosition leaves it. */
  function Closed(p: Position, exitPrice: real, now: int): (c: Position)
    ensures c.id == p.id && c.strategy == p.strategy && c.entryPrice == p.entryPrice && c.quantity == p.quantity
    ensures c.stopLoss == p.stopLoss && c.takeProfit == p.takeProfit && c.entryTime == p.entryTime
    ensures !c.isOpen && c.exitPrice == Some(exitPrice) && c.exitTime == Some(now)
    ensures c.profit == Some(Profit(p, exitPrice))
  {
    p.(exitPrice := Some(exitPrice), exitTime := Some(now), isOpen := false, profit := Some(Profit(p, exitPrice)))
  }

  /**
    The position openPosition stores under `id`: open at the signal's price,
    with its stop, target and strategy and the given quantity, not yet exited.
   */
  function Opened(signal: Signal, quantity: real, id: nat, now: int): (p: Position)
    requires signal.price.Some?
    ensures p.id == id && p.isOpen
    ensures p.entryPrice == signal.price.value && p.quantity == quantity
    ensures p.stopLoss == signal.stopLoss && p.takeProfit == signal.takeProfit
    ensures p.strategy == signal.strategy && p.symbol == Symbol && p.entryTime == now
    ensures p.exitTime.None? && p.exitPrice.None? && p.profit.None?
  {
    Position(id, signal.strategy, Symbol, signal.price.value, quantity,
      signal.stopLoss, signal.takeProfit, now, None, None, None, true)
  }

  /** openPosition: the new position is appended under the next id. */
  method OpenPosition(repo: PositionRepository, signal: Signal, quantity: real, now: int) returns (saved: Position)
    requires repo.Valid() && signal.price.Some?
    modifies repo
    ensures repo.Valid()
    ensures saved == Opened(signal, quantity, |old(repo.positions)| + 1, now)
    ensures repo.positions == old(repo.positions) + [saved]
  {
    saved := repo.Insert(Opened(signal, quantity, 0, now));
  }

  /** The book after closing the position with id `id`, which must exist. */
  function CloseIn(positions: seq<Position>, id: int, exitPrice: real, now: int): (r: seq<Position>)
    requires 1 <= id <= |positions|
    ensures |r| == |positions|
  {
    positions[id - 1 := Closed(positions[id - 1], exitPrice, now)]
  }

  /**
    closePosition: records the exit price and time, marks the position closed
    and books its profit; an unknown id throws "Position not found".
   */
  method ClosePosition(repo: PositionRepository, id: int, exitPrice: real, now: int) returns (r: Result<Position, Fault>)
    requires repo.Valid()
    modifies repo
    ensures repo.Valid()
    ensures !(1 <= id <= |old(repo.positions)|) ==>
      r == Failure(PositionNotFound) && repo.positions == old(repo.positions)
    ensures 1 <= id <= |old(repo.positions)| ==>
      && r == Success(Closed(old(repo.positions)[id - 1], exitPrice, now))
      && repo.positions == CloseIn(old(repo.positions), id, exitPrice, now)
  {
    var found := repo.FindById(id);
    if found.None? {
      return Failure(PositionNotFound);
    }
    var position := Closed(found.value, exitPrice, now);
    repo.Update(position);
    r := Success(position);
  }

  /** Closing keeps the ids in place and the closed position leaves the open ones. */
  lemma ClosedLeavesOpenPositions(positions: seq<Position>, id: int, exitPrice: real, now: int)
    requires IdsAreRows(positions) && 1 <= id <= |positions|
    ensures IdsAreRows(CloseIn(positions, id, exitPrice, now))
    ensures forall p :: p in WithOpen(CloseIn(positions, id, exitPrice, now), true) ==> p.id != id
    ensures forall p :: p in WithOpen(positions, true) && p.id != id ==> p in WithOpen(CloseIn(positions, id, exitPrice, now), true)
  {
    var after := CloseIn(positions, id, exitPrice, now);
    forall p | p in WithOpen(after, true)
      ensures p.id != id
    {
      var i :| 0 <= i < |after| && after[i] == p;
    }
    forall p | p in WithOpen(positions, true) && p.id != id
      ensures p in WithOpen(after, true)
    {
      var i :| 0 <= i < |positions| && positions[i] == p;
      assert after[i] == p;
    }
  }

  // ---------------------------------------------------------------- stop loss and take profit

  /** The stop is at or above the price, or a target exists and the price reached it. */
  predicate Triggered(p: Position, price: real)
    requires p.stopLoss.Some?
  {
    price <= p.stopLoss.value || (p.takeProfit.Some? && price >= p.takeProfit.value)
  }

  /** An open position without a stop: comparing the price with it throws. */
  predicate NullStop(p: Position) {
    p.isOpen && p.stopLoss.None?
  }

  /** The index of the first open position without a stop, or the length of the book. */
  function FirstNullStop(positions: seq<Position>): (k: nat)
    ensures k <= |positions|
    ensures forall j :: 0 <= j < k ==> !NullStop(positions[j])
    ensures k < |positions| ==> NullStop(positions[k])
  {
    if |positions| == 0 then 0
    else
      var k := FirstNullStop(positions[..|positions| - 1]);
      assert forall j :: 0 <= j < |positions| - 1 ==> positions[..|positions| - 1][j] == positions[j];
      if k < |positions| - 1 then k
      else if NullStop(positions[|positions| - 1]) then |positions| - 1
      else |positions|
  }

  /** One position after the check: closed at the price if it is open and triggered. */
  function StopChecked(p: Position, price: real, now: int): Position {
    if p.isOpen && p.stopLoss.Some? && Triggered(p, price) then Closed(p, price, now) else p
  }

  /** The first `k` positions checked, the rest untouched. */
  function CheckedUpTo(positions: seq<Position>, k: int, price: real, now: int): (r: seq<Position>)
    ensures |r| == |positions|
  {
    seq(|positions|, j requires 0 <= j < |positions| =>
      if j < k then StopChecked(positions[j], price, now) else positions[j])
  }

  /**
    The book after checkStopLossAndTakeProfit: every open position before the
    first one without a stop is checked; that one throws, so the rest keep their
    state.
   */
  function CheckStops(positions: seq<Position>, price: real, now: int): seq<Position> {
    CheckedUpTo(positions, FirstNullStop(positions), price, now)
  }

  /**
    checkStopLossAndTakeProfit. The source walks the open positions in id order;
    walking every row and skipping the closed ones visits the same positions in
    the same order.
   */
  method CheckStopLossAndTakeProfit(repo: PositionRepository, price: real, now: int) returns (fault: Option<Fault>)
    requires repo.Valid()
    modifies repo
    ensures repo.Valid()
    ensures repo.positions == CheckStops(old(repo.positions), price, now)
    ensures fault.Some? <==> FirstNullStop(old(repo.positions)) < |old(repo.positions)|
    ensures fault.Some? ==> fault.value == NullPointer
  {
    ghost var start := repo.positions;
    var i := 0;
    while i < |repo.positions|
      invariant repo.Valid() && |repo.positions| == |start|
      invariant 0 <= i <= |start| && i <= FirstNullStop(start)
      invariant repo.positions == CheckedUpTo(start, i, price, now)
    {
      var p := repo.positions[i];
      assert p == start[i];
      if p.isOpen {
        if p.stopLoss.None? {
          assert repo.positions == CheckStops(start, price, now);
          return Some(NullPointer);
        }
        if Triggered(p, price) {
          var closed := ClosePosition(repo, p.id, price, now);
        }
      }
      assert repo.positions == CheckedUpTo(start, i + 1, price, now);
      i := i + 1;
    }
    fault := None;
  }

  /**
    A checked position is closed afterwards exactly when it was open and its stop
    or target was reached; one strictly between its stop and target, or below a
    missing target, stays open and unchanged.
   */
  lemma CheckStopsCloses(positions: seq<Position>, price: real, now: int, i: int)
    requires 0 <= i < FirstNullStop(positions)
    ensures var after := CheckStops(positions, price, now)[i];
      positions[i].isOpen ==> (after.isOpen <==> !Triggered(positions[i], price))
    ensures var after := CheckStops(positions, price, now)[i];
      positions[i].isOpen && !after.isOpen ==> after == Closed(positions[i], price, now)
    ensures var after := CheckStops(positions, price, now)[i];
      !positions[i].isOpen || after.isOpen ==> after == positions[i]
  {
  }

  /** Running the check twice at the same price changes nothing more. */
  lemma CheckStopsIdempotent(positions: seq<Position>, price: real, now: int)
    ensures CheckStops(CheckStops(positions, price, now), price, now) == CheckStops(positions, price, now)
  {
    var once := CheckStops(positions, price, now);
    var k := FirstNullStop(positions);
    assert forall j :: 0 <= j < k ==> !NullStop(once[j]);
    if k < |positions| {
      assert once[k] == positions[k];
    }
    assert FirstNullStop(once) == k;
  }

  // ---------------------------------------------------------------- profit and loss

  /** The profit a position has realised: a closed position's non-null profit. */
  function RealisedOf(p: Position): real {
    if !p.isOpen && p.profit.Some? then p.profit.value else 0.0
  }

  /** What an open position would make at `price`. */
  function UnrealisedOf(p: Position, price: real): real {
    if p.isOpen then (price - p.entryPrice) * p.quantity else 0.0
  }

  function Realised(positions: seq<Position>): (r: seq<real>)
    ensures |r| == |positions|
    ensures forall i :: 0 <= i < |positions| ==> r[i] == RealisedOf(positions[i])
  {
    seq(|positions|, i requires 0 <= i < |positions| => RealisedOf(positions[i]))
  }

  function Unrealised(positions: seq<Position>, price: real): (r: seq<real>)
    ensures |r| == |positions|
    ensures forall i :: 0 <= i < |positions| ==> r[i] == UnrealisedOf(positions[i], price)
  {
    seq(|positions|, i requires 0 <= i < |positions| => UnrealisedOf(positions[i], price))
  }

  /** getTotalPnL: the sum of the non-null profits of the closed positions. */
  function TotalPnL(positions: seq<Position>): real {
    Sum(Realised(positions))
  }

  /** getUnrealizedPnL: Σ (price − entry) × quantity over the open positions. */
  function UnrealizedPnL(positions: seq<Position>, price: real): real {
    Sum(Unrealised(positions, price))
  }

  /** A book with nothing closed has realised nothing; one with nothing open has nothing unrealised. */
  lemma EmptySides(positions: seq<Position>, price: real)
    ensures (forall p :: p in positions ==> p.isOpen) ==> TotalPnL(positions) == 0.0
    ensures (forall p :: p in positions ==> !p.isOpen) ==> UnrealizedPnL(positions, price) == 0.0
  {
    if forall p :: p in positions ==> p.isOpen {
      SumConstant(Realised(positions), 0.0);
    }
    if forall p :: p in positions ==> !p.isOpen {
      SumConstant(Unrealised(positions, price), 0.0);
    }
  }

  /**
    Closing an open position at the current price moves its profit from the
    unrealised to the realised side: their total stays the same.
   */
  lemma ClosingConservesPnL(positions: seq<Position>, id: int, price: real, now: int)
    requires 1 <= id <= |positions| && positions[id - 1].isOpen
    ensures var after := CloseIn(positions, id, price, now);
      TotalPnL(after) + UnrealizedPnL(after, price) == TotalPnL(positions) + UnrealizedPnL(positions, price)
    ensures var after := CloseIn(positions, id, price, now);
      TotalPnL(after) == TotalPnL(positions) + Profit(positions[id - 1], price)
  {
    var k := id - 1;
    var after := CloseIn(positions, id, price, now);
    var c := Closed(positions[k], price, now);
    assert Realised(after) == Realised(positions)[k := RealisedOf(c)];
    assert Unrealised(after, price) == Unrealised(positions, price)[k := UnrealisedOf(c, price)];
    SumUpdate(Realised(positions), k, RealisedOf(c));
    SumUpdate(Unrealised(positions, price), k, UnrealisedOf(c, price));
  }
}
