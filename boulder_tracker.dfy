/**
 * The boulder tracker (infra/boulder_tracker.rs): the boulders the bot knows
 * of, keyed by position, each flagged with whether it has been moved from
 * where the level placed it.
 */
module BoulderTrackers {
  import opened Wrappers
  import opened Types
  import opened Swoq

  /** `Boulder` of the source; the name is taken by the tile. */
  datatype TrackedBoulder = TrackedBoulder(pos: Position, hasMoved: bool)

  class BoulderTracker {
    var boulders: map<Position, TrackedBoulder>

    /** Every entry is stored under its own position. */
    ghost predicate Valid()
      reads this
    {
      forall p :: p in boulders ==> boulders[p].pos == p
    }

    constructor ()
      ensures Valid() && boulders == map[]
    {
      boulders := map[];
    }

    method AddBoulder(pos: Position, hasMoved: bool)
      requires Valid()
      modifies this
      ensures Valid()
      ensures boulders == old(boulders)[pos := TrackedBoulder(pos, hasMoved)]
      ensures Contains(pos) && HasMoved(pos) == hasMoved
    {
      boulders := boulders[pos := TrackedBoulder(pos, hasMoved)];
    }

    method RemoveBoulder(pos: Position) returns (r: Option<TrackedBoulder>)
      requires Valid()
      modifies this
      ensures Valid()
      ensures boulders == old(boulders) - {pos}
      ensures r == if pos in old(boulders) then Some(old(boulders)[pos]) else None
      ensures !Contains(pos)
    {
      r := if pos in boulders then Some(boulders[pos]) else None;
      boulders := boulders - {pos};
    }

    /** The positions of all tracked boulders (a `Vec` in hash order in the source). */
    function GetAllPositions(): set<Position>
      reads this
    {
      boulders.Keys
    }

    /** The boulders that are still where the level put them. */
    function GetOriginalBoulders(): (r: set<Position>)
      requires Valid()
      reads this
      ensures forall p :: p in r <==> Contains(p) && !HasMoved(p)
    {
      set p | p in boulders && !boulders[p].hasMoved :: boulders[p].pos
    }

    predicate Contains(pos: Position)
      reads this
    {
      pos in boulders
    }

    function HasMoved(pos: Position): (r: bool)
      reads this
      ensures r ==> Contains(pos)
    {
      if pos in boulders then boulders[pos].hasMoved else false
    }

    function Len(): nat
      reads this
    {
      |boulders|
    }

    function IsEmpty(): (r: bool)
      reads this
      ensures r <==> Len() == 0
    {
      boulders == map[]
    }

    /** `clear` (the world-state copy of this tracker, src/boulder_tracker.rs). */
    method Clear()
      modifies this
      ensures Valid() && boulders == map[]
    {
      boulders := map[];
    }

    /**
     * `update`: adds each newly seen boulder, flagged as moved iff
     * `isAdjacent` holds for it, keeping the flags of known boulders; then
     * removes every tracked boulder whose known tile is no longer a boulder.
     */
    method Update(seenBoulders: seq<Position>, tiles: map<Position, Tile>, isAdjacent: Position -> bool)
      requires Valid()
      modifies this
      ensures Valid()
      ensures forall p :: p in boulders <==>
        (p in old(boulders) || p in seenBoulders) && !(p in tiles && tiles[p] != Tile.Boulder)
      ensures forall p :: p in boulders && p in old(boulders) ==> boulders[p] == old(boulders)[p]
      ensures forall p :: p in boulders && p !in old(boulders) ==> boulders[p] == TrackedBoulder(p, isAdjacent(p))
    {
      for i := 0 to |seenBoulders|
        invariant Valid()
        invariant forall p :: p in boulders <==> p in old(boulders) || p in seenBoulders[..i]
        invariant forall p :: p in old(boulders) ==> boulders[p] == old(boulders)[p]
        invariant forall p :: p in boulders && p !in old(boulders) ==> boulders[p] == TrackedBoulder(p, isAdjacent(p))
      {
        var pos := seenBoulders[i];
        assert seenBoulders[..i + 1] == seenBoulders[..i] + [pos];
        if !Contains(pos) {
          var hasMoved := isAdjacent(pos);
          AddBoulder(pos, hasMoved);
        }
      }
      assert seenBoulders[..|seenBoulders|] == seenBoulders;
      ghost var added := boulders;
      var remaining := GetAllPositions();
      while remaining != {}
        invariant Valid()
        invariant remaining <= added.Keys
        invariant forall p :: p in boulders <==>
          p in added && (p in remaining || !(p in tiles && tiles[p] != Tile.Boulder))
        invariant forall p :: p in boulders ==> boulders[p] == added[p]
        decreases remaining
      {
        var pos :| pos in remaining;
        if pos in tiles {
          var keepBoulder := tiles[pos] == Tile.Boulder;
          if !keepBoulder {
            var _ := RemoveBoulder(pos);
          }
        }
        remaining := remaining - {pos};
      }
    }
  }
}
