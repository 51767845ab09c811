/**
 * Path search over the bot's world state (pathfinding.rs).
 *
 * `FindPath` is the world-state A*: unit step cost, the step test is
 * `is_walkable_with_goal`, and it runs on the search loop shared with
 * infra/pathfinding.rs. `ComputeReachablePositions` is the breadth-first
 * pass that collects the unexplored frontier.
 */
module Pathfinding {
  import opened Wrappers
  import opened Types
  import opened Swoq
  import opened ItemTrackers
  import opened BoulderTrackers
  import opened InfraPathfinding
  import opened WorldStates

  /** The parts of the world state the two searches read. */
  datatype Terrain = Terrain(tiles: map<Position, Tile>, inventory: Inventory, plates: map<Color, seq<Position>>,
                             boulders: map<Position, TrackedBoulder>, width: int, height: int)

  function TerrainOf(world: WorldState): Terrain
    reads world, world.pressurePlates, world.boulderInfo
  {
    Terrain(world.tiles, world.playerInventory, world.pressurePlates.positions, world.boulderInfo.boulders,
            world.mapWidth, world.mapHeight)
  }

  /**
   * `AStar::find_path`. The call in the source passes only the cell and the
   * goal to `is_walkable_with_goal`, whose signature also takes
   * `can_open_doors`; the model passes this function's own `canOpenDoors`.
   * A returned path runs from `start` to `goal` in unit steps over cells
   * inside the map that `is_walkable_with_goal` admits, and was found within
   * the expansion cap.
   */
  method FindPath(world: WorldState, start: Position, goal: Position, canOpenDoors: bool)
    returns (r: Option<seq<Position>>, ghost expansions: nat)
    ensures expansions <= MaxExpansions + 1
    ensures r.Some? ==> expansions <= MaxExpansions
    ensures start == goal ==> r == Some([goal])
    ensures r.Some? ==>
      var path := r.value;
      var w := TerrainOf(world);
      && |path| >= 1 && path[0] == start && path[|path| - 1] == goal
      && forall i :: 1 <= i < |path| ==>
           && IsAdjacent(path[i - 1], path[i])
           && InGrid(path[i], w.width, w.height)
           && WalkableWithGoal(w.tiles, w.inventory, w.plates, w.boulders, path[i], canOpenDoors, goal)
  {
    var w := TerrainOf(world);
    var accept := (from: Position, to: Position, tick: nat) =>
      WalkableWithGoal(w.tiles, w.inventory, w.plates, w.boulders, to, canOpenDoors, goal);
    var cost := (to: Position, tick: nat) => 1;
    var found;
    found, expansions := Search(w.width, w.height, start, goal, accept, cost);
    r := found;
    if r.Some? {
      var path := r.value;
      forall i | 1 <= i < |path|
        ensures WalkableWithGoal(w.tiles, w.inventory, w.plates, w.boulders, path[i], canOpenDoors, goal)
      {
        assert accept(path[i - 1], path[i], i);
      }
    }
  }

  // ---------------------------------------------------------------------
  // Reachable frontier
  // ---------------------------------------------------------------------

  /** A cell that was never seen or that shows as Unknown. */
  predicate Unexplored(tiles: map<Position, Tile>, p: Position)
  {
    p !in tiles || tiles[p] == Unknown
  }

  /**
   * The optimistic walkability of the frontier pass: walls, boulders and
   * enemies block, a door lets through exactly when its key is held,
   * everything else (unseen cells included) is walkable.
   */
  function OptimisticallyWalkable(w: Terrain, p: Position): (r: bool)
    ensures p !in w.tiles ==> r
    ensures p in w.tiles && w.tiles[p] in {Wall, Boulder, Enemy} ==> !r
    ensures p in w.tiles && w.tiles[p].Door? ==>
      (r <==> HasKeyIn(w.inventory, w.tiles, w.plates, w.boulders, w.tiles[p].doorColor))
  {
    match TileAt(w.tiles, p)
    case Some(Wall) => false
    case Some(Boulder) => false
    case Some(Enemy) => false
    case Some(Door(c)) => HasKeyIn(w.inventory, w.tiles, w.plates, w.boulders, c)
    case _ => true
  }

  /** Every cell of the map. */
  ghost function Grid(width: int, height: int): set<Position>
  {
    set x, y | 0 <= x < width && 0 <= y < height :: Position(x, y)
  }

  /**
   * The frontier holds exactly the enqueued cells that are unexplored and
   * were first reached from an explored cell.
   */
  ghost predicate FrontierOK(w: Terrain, order: seq<Position>, parent: seq<nat>, frontier: set<Position>)
    requires |parent| == |order|
    requires forall i :: 1 <= i < |order| ==> parent[i] < i
  {
    forall p :: p in frontier <==>
      exists i :: 1 <= i < |order| && order[i] == p && Unexplored(w.tiles, p) && !Unexplored(w.tiles, order[parent[i]])
  }

  /**
   * The breadth-first search state: `order` lists every cell ever enqueued,
   * `parent[i]` the index of the cell it was reached from, and the queue is
   * the part of `order` not yet popped.
   */
  ghost predicate BfsInv(w: Terrain, start: Position, order: seq<Position>, parent: seq<nat>, head: nat,
                         reachable: set<Position>, queue: seq<Position>, frontier: set<Position>)
  {
    && |order| >= 1 && order[0] == start && |parent| == |order|
    && NoDuplicates(order)
    && (forall p :: p in reachable <==> p in order)
    && head <= |order| && queue == order[head..]
    && (forall i :: 1 <= i < |order| ==>
          && parent[i] < i
          && IsAdjacent(order[parent[i]], order[i])
          && InGrid(order[i], w.width, w.height)
          && OptimisticallyWalkable(w, order[i]))
    && FrontierOK(w, order, parent, frontier)
  }

  /** Every in-map walkable neighbour of the first `done` enqueued cells has been enqueued. */
  ghost predicate ClosedUpTo(w: Terrain, order: seq<Position>, done: nat, reachable: set<Position>)
    requires done <= |order|
  {
    forall k, n :: (0 <= k < done && n in Neighbors(order[k]) && InGrid(n, w.width, w.height)
                    && OptimisticallyWalkable(w, n)) ==> n in reachable
  }

  /**
   * `AStar::compute_reachable_positions`. Besides the frontier it returns,
   * as ghosts, every enqueued cell in enqueue order and the index of the
   * cell each was reached from. Each cell is enqueued at most once, each
   * enqueued cell after `start` is an in-map optimistically walkable
   * neighbour of an earlier one, every such neighbour of an enqueued cell is
   * itself enqueued, and the frontier is the set of enqueued unexplored
   * cells first reached from an explored cell.
   */
  method ComputeReachablePositions(world: WorldState, start: Position)
    returns (frontier: set<Position>, ghost order: seq<Position>, ghost parent: seq<nat>)
    ensures |order| >= 1 && order[0] == start && |parent| == |order|
    ensures NoDuplicates(order)
    ensures var w := TerrainOf(world);
      forall i :: 1 <= i < |order| ==>
        && parent[i] < i
        && IsAdjacent(order[parent[i]], order[i])
        && InGrid(order[i], w.width, w.height)
        && OptimisticallyWalkable(w, order[i])
    ensures var w := TerrainOf(world);
      forall k, n :: (0 <= k < |order| && n in Neighbors(order[k]) && InGrid(n, w.width, w.height)
                      && OptimisticallyWalkable(w, n)) ==> n in order
    ensures var w := TerrainOf(world);
      forall p :: p in frontier <==>
        exists i :: 1 <= i < |order| && order[i] == p && Unexplored(w.tiles, p)
                    && !Unexplored(w.tiles, order[parent[i]])
    ensures var w := TerrainOf(world);
      forall p :: p in frontier ==>
        InGrid(p, w.width, w.height) && Unexplored(w.tiles, p) && OptimisticallyWalkable(w, p) && p != start
  {
    var w := TerrainOf(world);
    var reachable: set<Position> := {start};
    var queue: seq<Position> := [start];
    frontier := {};
    order, parent := [start], [0];
    ghost var head: nat := 0;
    ghost var unvisited := Grid(w.width, w.height) - reachable;
    while |queue| > 0
      invariant BfsInv(w, start, order, parent, head, reachable, queue, frontier)
      invariant ClosedUpTo(w, order, head, reachable)
      invariant unvisited == Grid(w.width, w.height) - reachable
      decreases |unvisited|, |queue|
    {
      reachable, queue, frontier, order, parent, head, unvisited :=
        ExpandHead(w, start, reachable, queue, frontier, order, parent, head, unvisited);
    }
  }

  /** One turn of the outer loop: pop the queue's head and visit its four neighbours. */
  method ExpandHead(w: Terrain, start: Position, reachable: set<Position>, queue: seq<Position>,
                    frontier: set<Position>, ghost order: seq<Position>, ghost parent: seq<nat>, ghost head: nat,
                    ghost unvisited: set<Position>)
    returns (reachable': set<Position>, queue': seq<Position>, frontier': set<Position>,
             ghost order': seq<Position>, ghost parent': seq<nat>, ghost head': nat, ghost unvisited': set<Position>)
    requires BfsInv(w, start, order, parent, head, reachable, queue, frontier)
    requires ClosedUpTo(w, order, head, reachable)
    requires unvisited == Grid(w.width, w.height) - reachable
    requires |queue| > 0
    ensures BfsInv(w, start, order', parent', head', reachable', queue', frontier')
    ensures ClosedUpTo(w, order', head', reachable')
    ensures unvisited' == Grid(w.width, w.height) - reachable'
    ensures |unvisited'| < |unvisited| || (|unvisited'| == |unvisited| && |queue'| < |queue|)
  {
    var current := queue[0];
    PopPreserves(w, start, order, parent, head, reachable, queue, frontier);
    reachable', queue', frontier', order', parent', unvisited' := reachable, queue[1..], frontier, order, parent, unvisited;
    head' := head + 1;
    var ns := Neighbors(current);
    for j := 0 to 4
      invariant BfsInv(w, start, order', parent', head', reachable', queue', frontier')
      invariant ClosedUpTo(w, order', head, reachable')
      invariant order'[head] == current
      invariant Handled(w, ns, j, reachable')
      invariant unvisited' == Grid(w.width, w.height) - reachable'
      invariant |order'| >= |order|
      invariant |unvisited'| + |order'| == |unvisited| + |order| && |queue'| - |order'| == |queue| - 1 - |order|
    {
      ghost var order0, reachable0 := order', reachable';
      reachable', queue', frontier', order', parent', unvisited' :=
        VisitNeighbor(w, start, current, ns[j], head', reachable', queue', frontier', order', parent', unvisited');
      ClosedGrows(w, order0, order', head, reachable0, reachable');
      HandledGrows(w, ns, j, reachable0, reachable');
    }
    CloseHead(w, order', head, reachable', ns);
  }

  /** The in-map walkable cells among the first `j` of `ns` have been enqueued. */
  ghost predicate Handled(w: Terrain, ns: seq<Position>, j: nat, reachable: set<Position>)
    requires j <= |ns|
  {
    forall jj :: (0 <= jj < j && InGrid(ns[jj], w.width, w.height) && OptimisticallyWalkable(w, ns[jj]))
                 ==> ns[jj] in reachable
  }

  lemma HandledGrows(w: Terrain, ns: seq<Position>, j: nat, reachable: set<Position>, reachable': set<Position>)
    requires j < |ns| && Handled(w, ns, j, reachable) && reachable <= reachable'
    requires InGrid(ns[j], w.width, w.height) && OptimisticallyWalkable(w, ns[j]) ==> ns[j] in reachable'
    ensures Handled(w, ns, j + 1, reachable')
  {
  }

  /** Popping the queue's head keeps the search state, one more cell being popped. */
  lemma PopPreserves(w: Terrain, start: Position, order: seq<Position>, parent: seq<nat>, head: nat,
                     reachable: set<Position>, queue: seq<Position>, frontier: set<Position>)
    requires BfsInv(w, start, order, parent, head, reachable, queue, frontier)
    requires |queue| > 0
    ensures head < |order| && order[head] == queue[0]
    ensures BfsInv(w, start, order, parent, head + 1, reachable, queue[1..], frontier)
  {
  }

  /** Once every neighbour of the cell at `head` is handled, that cell counts as finished. */
  lemma CloseHead(w: Terrain, order: seq<Position>, head: nat, reachable: set<Position>, ns: seq<Position>)
    requires head < |order| && ns == Neighbors(order[head])
    requires ClosedUpTo(w, order, head, reachable)
    requires |ns| == 4 && Handled(w, ns, 4, reachable)
    ensures ClosedUpTo(w, order, head + 1, reachable)
  {
    assert forall n :: n in ns ==> exists jj :: 0 <= jj < 4 && ns[jj] == n;
  }

  /** The body of the neighbour loop: enqueue `neighbor` when it is new, in the map and walkable. */
  method VisitNeighbor(w: Terrain, start: Position, current: Position, neighbor: Position, ghost head: nat,
                       reachable: set<Position>, queue: seq<Position>, frontier: set<Position>,
                       ghost order: seq<Position>, ghost parent: seq<nat>, ghost unvisited: set<Position>)
    returns (reachable': set<Position>, queue': seq<Position>, frontier': set<Position>,
             ghost order': seq<Position>, ghost parent': seq<nat>, ghost unvisited': set<Position>)
    requires BfsInv(w, start, order, parent, head, reachable, queue, frontier)
    requires 1 <= head && order[head - 1] == current && IsAdjacent(current, neighbor)
    requires unvisited == Grid(w.width, w.height) - reachable
    ensures BfsInv(w, start, order', parent', head, reachable', queue', frontier')
    ensures |order| <= |order'| && order'[..|order|] == order && reachable <= reachable'
    ensures order'[head - 1] == current
    ensures InGrid(neighbor, w.width, w.height) && OptimisticallyWalkable(w, neighbor) ==> neighbor in reachable'
    ensures unvisited' == Grid(w.width, w.height) - reachable'
    ensures |unvisited'| + |order'| == |unvisited| + |order| && |queue'| - |order'| == |queue| - |order|
  {
    reachable', queue', frontier', order', parent', unvisited' := reachable, queue, frontier, order, parent, unvisited;
    if neighbor in reachable {
      return;
    }
    if !InGrid(neighbor, w.width, w.height) {
      return;
    }
    var isUnexplored := Unexplored(w.tiles, neighbor);
    var walkable := OptimisticallyWalkable(w, neighbor);
    if walkable {
      reachable' := reachable + {neighbor};
      queue' := queue + [neighbor];
      order', parent' := order + [neighbor], parent + [head - 1];
      unvisited' := unvisited - {neighbor};
      if isUnexplored {
        var currentIsExplored := !Unexplored(w.tiles, current);
        if currentIsExplored {
          frontier' := frontier + {neighbor};
        }
      }
      EnqueuePreserves(w, start, order, parent, head, reachable, queue, frontier, neighbor, frontier');
      ShrinkUnvisited(w, reachable, unvisited, neighbor);
    }
  }

  /** Enqueueing a new in-map walkable neighbour of the cell being expanded keeps the search state. */
  lemma EnqueuePreserves(w: Terrain, start: Position, order: seq<Position>, parent: seq<nat>, head: nat,
                         reachable: set<Position>, queue: seq<Position>, frontier: set<Position>,
                         n: Position, frontier': set<Position>)
    requires BfsInv(w, start, order, parent, head, reachable, queue, frontier)
    requires 1 <= head && IsAdjacent(order[head - 1], n)
    requires n !in reachable && InGrid(n, w.width, w.height) && OptimisticallyWalkable(w, n)
    requires frontier' == if Unexplored(w.tiles, n) && !Unexplored(w.tiles, order[head - 1]) then frontier + {n} else frontier
    ensures BfsInv(w, start, order + [n], parent + [head - 1], head, reachable + {n}, queue + [n], frontier')
  {
    var order', parent' := order + [n], parent + [head - 1];
    FrontierStep(w, order, parent, frontier, n, head - 1, frontier');
    assert queue + [n] == order'[head..];
    forall i | 1 <= i < |order'|
      ensures parent'[i] < i && IsAdjacent(order'[parent'[i]], order'[i])
    {
      if i < |order| {
        assert order'[parent'[i]] == order[parent[i]];
      }
    }
  }

  /** The cell handed out leaves the unvisited part of the map. */
  lemma ShrinkUnvisited(w: Terrain, reachable: set<Position>, unvisited: set<Position>, n: Position)
    requires unvisited == Grid(w.width, w.height) - reachable
    requires n !in reachable && InGrid(n, w.width, w.height)
    ensures unvisited - {n} == Grid(w.width, w.height) - (reachable + {n})
    ensures |unvisited - {n}| == |unvisited| - 1
  {
    assert n in Grid(w.width, w.height);
  }

  /** Growing the enqueued cells keeps the neighbours of the finished cells enqueued. */
  lemma ClosedGrows(w: Terrain, order: seq<Position>, order': seq<Position>, done: nat,
                    reachable: set<Position>, reachable': set<Position>)
    requires done <= |order| <= |order'| && order'[..|order|] == order && reachable <= reachable'
    requires ClosedUpTo(w, order, done, reachable)
    ensures ClosedUpTo(w, order', done, reachable')
  {
    forall k, n | 0 <= k < done && n in Neighbors(order'[k]) && InGrid(n, w.width, w.height)
                  && OptimisticallyWalkable(w, n)
      ensures n in reachable'
    {
      assert order'[k] == order[k];
    }
  }

  /** Enqueueing one new cell keeps the frontier description. */
  lemma FrontierStep(w: Terrain, order: seq<Position>, parent: seq<nat>, frontier: set<Position>,
                     n: Position, from: nat, frontier': set<Position>)
    requires |parent| == |order| && from < |order| && n !in order
    requires forall i :: 1 <= i < |order| ==> parent[i] < i
    requires FrontierOK(w, order, parent, frontier)
    requires frontier' == if Unexplored(w.tiles, n) && !Unexplored(w.tiles, order[from]) then frontier + {n} else frontier
    ensures FrontierOK(w, order + [n], parent + [from], frontier')
  {
    var order', parent' := order + [n], parent + [from];
    forall p
      ensures p in frontier' <==>
        exists i :: 1 <= i < |order'| && order'[i] == p && Unexplored(w.tiles, p)
                    && !Unexplored(w.tiles, order'[parent'[i]])
    {
      if p in frontier' && p != n {
        var i :| 1 <= i < |order| && order[i] == p && Unexplored(w.tiles, p) && !Unexplored(w.tiles, order[parent[i]]);
        assert order'[i] == p && order'[parent'[i]] == order[parent[i]];
      }
      if p == n && p in frontier' {
        assert order'[|order|] == p && order'[parent'[|order|]] == order[from];
      }
      if exists i :: 1 <= i < |order'| && order'[i] == p && Unexplored(w.tiles, p)
                     && !Unexplored(w.tiles, order'[parent'[i]]) {
        var i :| 1 <= i < |order'| && order'[i] == p && Unexplored(w.tiles, p)
                 && !Unexplored(w.tiles, order'[parent'[i]]);
        if i < |order| {
          assert order[i] == p && order[parent[i]] == order'[parent'[i]];
        }
      }
    }
  }
}
