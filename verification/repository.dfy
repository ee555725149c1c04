/**
  The `positions` table behind PositionRepository, held in memory. Identity
  columns start at 1 and grow by one per insert, so the position with id `k`
  is the k-th row.
 */
module Repository {
  import opened Wrappers
  import opened Domain

  /** findByIsOpen(flag): the positions whose open flag is `flag`, in id order. */
  function WithOpen(positions: seq<Position>, flag: bool): (r: seq<Position>)
    ensures |r| <= |positions|
    ensures forall p :: p in r <==> p in positions && p.isOpen == flag
  {
    if |positions| == 0 then []
    else
      var last := positions[|positions| - 1];
      var rest := WithOpen(positions[..|positions| - 1], flag);
      assert positions == positions[..|positions| - 1] + [last];
      if last.isOpen == flag then rest + [last] else rest
  }

  /** Every row carries its own position as id. */
  predicate IdsAreRows(positions: seq<Position>) {
    forall i :: 0 <= i < |positions| ==> positions[i].id == i + 1
  }

  /** The row with id `id`, when there is one. */
  function Find(positions: seq<Position>, id: int): (r: Option<Position>)
    requires IdsAreRows(positions)
    ensures r.Some? ==> r.value in positions && r.value.id == id
    ensures r.None? ==> forall p :: p in positions ==> p.id != id
  {
    if 1 <= id <= |positions| then Some(positions[id - 1]) else None
  }

  class PositionRepository {
    var positions: seq<Position>

    ghost predicate Valid()
      reads this
    {
      IdsAreRows(positions)
    }

    constructor()
      ensures Valid() && positions == []
    {
      positions := [];
    }

    /** findById. */
    function FindById(id: int): (r: Option<Position>)
      reads this
      requires Valid()
      ensures r == Find(positions, id)
    {
      Find(positions, id)
    }

    /** findByIsOpen. */
    function FindByIsOpen(flag: bool): (r: seq<Position>)
      reads this
      ensures forall p :: p in r <==> p in positions && p.isOpen == flag
    {
      WithOpen(positions, flag)
    }

    /** save of a new entity: the store assigns the next id. */
    method Insert(p: Position) returns (saved: Position)
      requires Valid()
      modifies this
      ensures Valid()
      ensures saved == p.(id := |old(positions)| + 1)
      ensures positions == old(positions) + [saved]
    {
      saved := p.(id := |positions| + 1);
      positions := positions + [saved];
    }

    /** save of an entity that is already stored: its row is overwritten. */
    method Update(p: Position)
      requires Valid() && 1 <= p.id <= |positions|
      modifies this
      ensures Valid()
      ensures positions == old(positions)[p.id - 1 := p]
    {
      positions := positions[p.id - 1 := p];
    }
  }
}
