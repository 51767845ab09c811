/**
 * Path and destination housekeeping shared by the goals (goals/mod.rs),
 * and the goal vocabulary itself (goals/goal.rs). Each helper works on
 * the planning fields of one player: its position, its previous goal,
 * its current destination and its current cached path.
 */
module Goals {
  import opened Wrappers
  import opened Types
  import opened Swoq

  datatype Goal =
    | Explore
    | GetKey(keyColor: Color)
    | OpenDoor(doorColor: Color)
    | WaitOnTile(waitColor: Color, tile: Position)
    | PassThroughDoor(passColor: Color, doorPos: Position, targetPos: Position)
    | PickupSword
    | PickupHealth(healthPos: Position)
    | AvoidEnemy(avoidPos: Position)
    | KillEnemy(enemyPos: Position)
    | FetchBoulder(boulderPos: Position)
    | DropBoulder
    | DropBoulderOnPlate(plateColor: Color, platePos: Position)
    | ReachExit
    | RandomExplore(randomPos: Position)

  /** The per-player planning fields the helpers read and overwrite. */
  class PlayerGoalState {
    var position: Position
    var previousGoal: Option<Goal>
    var currentDestination: Option<Position>
    var currentPath: Option<seq<Position>>

    constructor (pos: Position)
      ensures position == pos && previousGoal == None && currentDestination == None && currentPath == None
    {
      position := pos;
      previousGoal := None;
      currentDestination := None;
      currentPath := None;
    }
  }

  /** `should_update_path`: replace the cached path only by a strictly shorter one, or when there is none. */
  function ShouldUpdatePath(newPath: seq<Position>, oldPath: Option<seq<Position>>): (r: bool)
    ensures r <==> oldPath.None? || |newPath| < |oldPath.value|
  {
    match oldPath
    case Some(previous) => |newPath| < |previous|
    case None => true
  }

  /** A cached path is never replaced by itself, nor by one it would in turn replace. */
  lemma ShouldUpdateAntisymmetric(a: seq<Position>, b: seq<Position>)
    ensures !ShouldUpdatePath(a, Some(a))
    ensures ShouldUpdatePath(a, Some(b)) ==> !ShouldUpdatePath(b, Some(a))
  {
  }

  /** `clear_path_on_goal_change`: a goal different from the previous one drops destination and path. */
  method ClearPathOnGoalChange(player: PlayerGoalState, currentGoal: Goal)
    modifies player
    ensures player.previousGoal != Some(currentGoal) ==> player.currentDestination == None && player.currentPath == None
    ensures old(player.previousGoal) == Some(currentGoal) ==>
      player.currentDestination == old(player.currentDestination) && player.currentPath == old(player.currentPath)
    ensures player.position == old(player.position) && player.previousGoal == old(player.previousGoal)
  {
    var goalChanged := player.previousGoal != Some(currentGoal);
    if goalChanged {
      player.currentDestination := None;
      player.currentPath := None;
    }
  }

  /** The destination tile is known and is something other than Empty or Unknown. */
  predicate DestinationOccupied(tiles: map<Position, Tile>, dest: Position)
  {
    dest in tiles && tiles[dest] != Empty && tiles[dest] != Unknown
  }

  /** `validate_destination`: a destination whose tile became occupied is dropped, with its path. */
  method ValidateDestination(player: PlayerGoalState, tiles: map<Position, Tile>)
    modifies player
    ensures old(player.currentDestination).Some? && DestinationOccupied(tiles, old(player.currentDestination).value) ==>
      player.currentDestination == None && player.currentPath == None
    ensures !(old(player.currentDestination).Some? && DestinationOccupied(tiles, old(player.currentDestination).value)) ==>
      player.currentDestination == old(player.currentDestination) && player.currentPath == old(player.currentPath)
    ensures player.position == old(player.position) && player.previousGoal == old(player.previousGoal)
  {
    if player.currentDestination.Some? {
      var dest := player.currentDestination.value;
      var tile := TileAt(tiles, dest);
      if tile.Some? {
        var isNotEmpty := !(tile.value == Empty || tile.value == Unknown);
        if isNotEmpty {
          player.currentDestination := None;
          player.currentPath := None;
        }
      }
    }
  }

  /** `skip_while(pos != target)`: the suffix of `path` starting at the first occurrence of `target`. */
  function SkipUntil(path: seq<Position>, target: Position): (r: seq<Position>)
    ensures |r| <= |path| && r == path[|path| - |r|..]
    ensures r != [] <==> target in path
    ensures r != [] ==> r[0] == target
    ensures target !in path[..|path| - |r|]
  {
    if path == [] then []
    else if path[0] == target then path
    else
      var rest := SkipUntil(path[1..], target);
      assert path[1..][..|path| - 1 - |rest|] == path[1..|path| - |rest|];
      assert path[..|path| - |rest|] == [path[0]] + path[1..|path| - |rest|];
      rest
  }

  /** The remaining path is non-empty, ends at the destination and is walkable throughout. */
  predicate PathStillValid(remaining: seq<Position>, dest: Position, isWalkable: (Position, Position) -> bool)
  {
    remaining != [] && remaining[|remaining| - 1] == dest
    && forall i :: 0 <= i < |remaining| ==> isWalkable(remaining[i], dest)
  }

  /**
   * `validate_and_trim_path`: with both a destination and a path, the path
   * is cut to start at the player's position, is dropped (the destination
   * kept) when the rest is invalid, and is otherwise replaced by the trimmed
   * rest when that is shorter. `isWalkable(pos, dest)` stands for the map's
   * walkability test, which is not part of this model.
   */
  method ValidateAndTrimPath(player: PlayerGoalState, isWalkable: (Position, Position) -> bool)
    modifies player
    ensures player.position == old(player.position) && player.previousGoal == old(player.previousGoal)
    ensures player.currentDestination == old(player.currentDestination)
    ensures old(player.currentDestination).None? || old(player.currentPath).None? ==>
      player.currentPath == old(player.currentPath)
    ensures old(player.currentDestination).Some? && old(player.currentPath).Some? ==>
      var remaining := SkipUntil(old(player.currentPath).value, old(player.position));
      if !PathStillValid(remaining, old(player.currentDestination).value, isWalkable) then player.currentPath == None
      else player.currentPath == Some(remaining)
  {
    var playerPos := player.position;
    if player.currentDestination.Some? && player.currentPath.Some? {
      var dest := player.currentDestination.value;
      var oldPath := player.currentPath.value;
      var remainingPath := SkipUntil(oldPath, playerPos);
      var pathValid := remainingPath != [] && remainingPath[|remainingPath| - 1] == dest
        && forall i :: 0 <= i < |remainingPath| ==> isWalkable(remainingPath[i], dest);
      if !pathValid {
        player.currentPath := None;
      } else if |remainingPath| < |oldPath| {
        player.currentPath := Some(remainingPath);
      }
    }
  }

  /**
   * `try_update_path_to_destination`: with a destination that `findPath`
   * (the world's per-player path search, not part of this model) reaches,
   * the new path replaces the cached one if it is shorter; the result says
   * whether the destination was reachable.
   */
  method TryUpdatePathToDestination(player: PlayerGoalState,
                                    findPath: (Position, Position) -> Option<seq<Position>>) returns (kept: bool)
    modifies player
    ensures player.position == old(player.position) && player.previousGoal == old(player.previousGoal)
    ensures player.currentDestination == old(player.currentDestination)
    ensures kept <==> old(player.currentDestination).Some?
                      && findPath(old(player.position), old(player.currentDestination).value).Some?
    ensures kept && ShouldUpdatePath(findPath(old(player.position), old(player.currentDestination).value).value,
                                     old(player.currentPath))
      ==> player.currentPath == findPath(old(player.position), old(player.currentDestination).value)
    ensures !(kept && ShouldUpdatePath(findPath(old(player.position), old(player.currentDestination).value).value,
                                       old(player.currentPath)))
      ==> player.currentPath == old(player.currentPath)
  {
    var playerPos := player.position;
    if player.currentDestination.Some? {
      var dest := player.currentDestination.value;
      var newPath := findPath(playerPos, dest);
      if newPath.Some? {
        if ShouldUpdatePath(newPath.value, player.currentPath) {
          player.currentPath := newPath;
        }
        return true;
      }
    }
    return false;
  }

  /**
   * `try_keep_destination`: a reachable destination gets the fresh path and
   * the result true; an unreachable one is dropped and the result is false.
   */
  method TryKeepDestination(player: PlayerGoalState,
                            findPath: (Position, Position) -> Option<seq<Position>>) returns (kept: bool)
    modifies player
    ensures player.position == old(player.position) && player.previousGoal == old(player.previousGoal)
    ensures kept <==> old(player.currentDestination).Some?
                      && findPath(old(player.position), old(player.currentDestination).value).Some?
    ensures kept ==> player.currentDestination == old(player.currentDestination)
                     && player.currentPath == findPath(old(player.position), old(player.currentDestination).value)
    ensures !kept ==> player.currentDestination == None && player.currentPath == old(player.currentPath)
  {
    var playerPos := player.position;
    if player.currentDestination.Some? {
      var dest := player.currentDestination.value;
      var newPath := findPath(playerPos, dest);
      if newPath.Some? {
        player.currentPath := newPath;
        return true;
      }
      player.currentDestination := None;
    }
    return false;
  }
}
