/** Helpers that turn a planned path or an adjacent target into a game action (infra/mod.rs). */
module Infra {
  import opened Wrappers
  import opened Types
  import opened Swoq

  /**
   * The move towards `path[1]`, vertical differences first. The result is a
   * move whose target is one step closer to `path[1]`, so for a contiguous
   * path it lands exactly on the next cell.
   */
  function PathToAction(current: Position, path: seq<Position>): (r: Option<DirectedAction>)
    ensures |path| < 2 ==> r.None?
    ensures r.Some? ==> r.value.IsMove()
    ensures |path| >= 2 ==> (r.None? <==> path[1] == current)
    ensures |path| >= 2 && r.Some? ==>
      Distance(ActionTarget(current, r.value), path[1]) + 1 == Distance(current, path[1])
    ensures |path| >= 2 && r.Some? && path[1].y != current.y ==> ActionTarget(current, r.value).x == current.x
  {
    if |path| < 2 then None
    else
      var next := path[1];
      if next.y < current.y then Some(MoveNorth)
      else if next.y > current.y then Some(MoveSouth)
      else if next.x > current.x then Some(MoveEast)
      else if next.x < current.x then Some(MoveWest)
      else None
  }

  /** Following a contiguous path: the chosen move lands on the path's second cell. */
  lemma PathToActionFollowsPath(current: Position, path: seq<Position>)
    requires |path| >= 2 && IsAdjacent(current, path[1])
    ensures PathToAction(current, path).Some?
    ensures ActionTarget(current, PathToAction(current, path).value) == path[1]
  {
    var a := PathToAction(current, path).value;
    DistanceZeroIff(ActionTarget(current, a), path[1]);
  }

  /** The use-action aimed from `from` at `to`; West when `to == from`. */
  function UseDirection(from: Position, to: Position): (r: DirectedAction)
    ensures !r.IsMove()
    ensures from != to ==> Distance(ActionTarget(from, r), to) + 1 == Distance(from, to)
    ensures from == to ==> r == UseWest
  {
    if to.y < from.y then UseNorth
    else if to.y > from.y then UseSouth
    else if to.x > from.x then UseEast
    else UseWest
  }

  /** Using an adjacent cell acts on exactly that cell. */
  lemma UseDirectionHitsTarget(from: Position, to: Position)
    requires IsAdjacent(from, to)
    ensures ActionTarget(from, UseDirection(from, to)) == to
  {
    DistanceZeroIff(ActionTarget(from, UseDirection(from, to)), to);
  }
}
