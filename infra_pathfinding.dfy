/**
 * A* search on the level grid (infra/pathfinding.rs).
 *
 * `Search` is the search loop shared by the three A* variants of the
 * repository (this file's `find_path_with_cost`, the world-state
 * `AStar::find_path` and the constrained low-level search of CBS); they
 * differ only in which steps they admit and what a step costs, which are the
 * `accept` and `cost` parameters here.
 *
 * The open set is a binary heap ordered by f-score alone; the order among
 * entries of equal f-score is unspecified, so the model keeps the open set as
 * a multiset and pops any entry of minimal f-score.
 */
module InfraPathfinding {
  import opened Wrappers
  import opened Types

  const MaxExpansions: nat := 5000
  const I32Max: int := 0x7fff_ffff

  /** A heap entry: a position, its f-score and the step count at which it is reached. */
  datatype Node = Node(pos: Position, f: int, tick: nat)

  function Heuristic(a: Position, b: Position): nat
  {
    Distance(a, b)
  }

  /** The map bounds check: inside `[0, width) x [0, height)`. */
  predicate InGrid(p: Position, width: int, height: int)
  {
    0 <= p.x < width && 0 <= p.y < height
  }

  /**
   * What every path the search returns satisfies: it runs from `start` to
   * `goal` in unit steps, every cell after the first is inside the map, and
   * the step onto cell `i` was admitted at tick `i`.
   */
  ghost predicate IsSearchPath(path: seq<Position>, start: Position, goal: Position, width: int, height: int,
                               accept: (Position, Position, nat) -> bool)
  {
    && |path| >= 1
    && path[0] == start
    && path[|path| - 1] == goal
    && forall i :: 1 <= i < |path| ==>
         IsAdjacent(path[i - 1], path[i]) && InGrid(path[i], width, height) && accept(path[i - 1], path[i], i)
  }

  predicate IsMinimal(e: Node, open: multiset<Node>)
  {
    forall x :: x in open ==> e.f <= x.f
  }

  lemma {:induction false} MinimalExists(open: multiset<Node>)
    requires open != multiset{}
    ensures exists e :: e in open && IsMinimal(e, open)
    decreases |open|
  {
    var x :| x in open;
    var rest := open - multiset{x};
    assert open == rest + multiset{x};
    if rest == multiset{} {
      assert IsMinimal(x, open);
    } else {
      MinimalExists(rest);
      var y :| y in rest && IsMinimal(y, rest);
      if x.f <= y.f {
        assert IsMinimal(x, open);
      } else {
        assert IsMinimal(y, open);
      }
    }
  }

  /** A came-from entry points to a closed cell one tick earlier, one admitted step away. */
  ghost predicate ParentOK(n: Position, cameFrom: map<Position, Position>, tickMap: map<Position, nat>,
                           closed: set<Position>, width: int, height: int,
                           accept: (Position, Position, nat) -> bool)
    requires n in cameFrom
  {
    var p := cameFrom[n];
    && n in tickMap
    && p in closed
    && p in tickMap
    && tickMap[n] == tickMap[p] + 1
    && IsAdjacent(p, n)
    && InGrid(n, width, height)
    && accept(p, n, tickMap[n])
  }

  /** The score tables share their keys: the start and every cell with a predecessor. */
  ghost predicate KeysOK(start: Position, cameFrom: map<Position, Position>, g: map<Position, int>,
                         tickMap: map<Position, nat>, closed: set<Position>)
  {
    && g.Keys == tickMap.Keys
    && g.Keys == cameFrom.Keys + {start}
    && start !in cameFrom
    && tickMap[start] == 0
    && closed <= g.Keys
  }

  ghost predicate ParentsOK(cameFrom: map<Position, Position>, tickMap: map<Position, nat>,
                            closed: set<Position>, width: int, height: int,
                            accept: (Position, Position, nat) -> bool)
  {
    // The trigger keeps the solver from walking the whole came-from chain.
    forall n {:trigger ParentOK(n, cameFrom, tickMap, closed, width, height, accept)} ::
      n in cameFrom ==> ParentOK(n, cameFrom, tickMap, closed, width, height, accept)
  }

  /** An entry never undercuts the best known score; one that matches it carries the best tick. */
  ghost predicate EntriesOK(goal: Position, open: multiset<Node>, g: map<Position, int>,
                            tickMap: map<Position, nat>, closed: set<Position>)
    requires g.Keys == tickMap.Keys
  {
    && (forall x :: x in open ==> x.pos in g)
    && (forall x :: x in open && x.pos !in closed ==>
          x.f >= g[x.pos] + Heuristic(x.pos, goal)
          && (x.f == g[x.pos] + Heuristic(x.pos, goal) ==> x.tick == tickMap[x.pos]))
  }

  /** Every cell that is not closed has an entry carrying its best score and tick. */
  ghost predicate LiveOK(goal: Position, open: multiset<Node>, g: map<Position, int>,
                         tickMap: map<Position, nat>, closed: set<Position>)
    requires g.Keys == tickMap.Keys
  {
    forall n :: n in g && n !in closed ==> Node(n, g[n] + Heuristic(n, goal), tickMap[n]) in open
  }

  /** The search state invariant. */
  ghost predicate SearchInv(start: Position, goal: Position, width: int, height: int,
                            accept: (Position, Position, nat) -> bool,
                            open: multiset<Node>, cameFrom: map<Position, Position>,
                            g: map<Position, int>, tickMap: map<Position, nat>, closed: set<Position>)
  {
    && KeysOK(start, cameFrom, g, tickMap, closed)
    && ParentsOK(cameFrom, tickMap, closed, width, height, accept)
    && EntriesOK(goal, open, g, tickMap, closed)
    && LiveOK(goal, open, g, tickMap, closed)
  }

  /** Closing more cells keeps every came-from link valid. */
  lemma CloseKeepsParents(width: int, height: int, accept: (Position, Position, nat) -> bool,
                          cameFrom: map<Position, Position>, tickMap: map<Position, nat>,
                          closed: set<Position>, closed': set<Position>)
    requires ParentsOK(cameFrom, tickMap, closed, width, height, accept)
    requires closed <= closed'
    ensures ParentsOK(cameFrom, tickMap, closed', width, height, accept)
  {
    forall n | n in cameFrom
      ensures ParentOK(n, cameFrom, tickMap, closed', width, height, accept)
    {
      assert ParentOK(n, cameFrom, tickMap, closed, width, height, accept);
    }
  }

  /** Popping an entry and closing its cell keeps a best-score entry for every open cell. */
  lemma PopKeepsLive(goal: Position, open: multiset<Node>, g: map<Position, int>,
                     tickMap: map<Position, nat>, closed: set<Position>, e: Node)
    requires g.Keys == tickMap.Keys
    requires LiveOK(goal, open, g, tickMap, closed)
    ensures LiveOK(goal, open - multiset{e}, g, tickMap, closed + {e.pos})
  {
    forall n | n in g && n !in closed + {e.pos}
      ensures Node(n, g[n] + Heuristic(n, goal), tickMap[n]) in open - multiset{e}
    {
      assert Node(n, g[n] + Heuristic(n, goal), tickMap[n]) in open;
    }
  }

  /** Popping an entry and closing its cell keeps the invariant. */
  lemma PopPreserves(start: Position, goal: Position, width: int, height: int,
                     accept: (Position, Position, nat) -> bool,
                     open: multiset<Node>, cameFrom: map<Position, Position>,
                     g: map<Position, int>, tickMap: map<Position, nat>, closed: set<Position>, e: Node)
    requires SearchInv(start, goal, width, height, accept, open, cameFrom, g, tickMap, closed)
    requires e in open
    ensures SearchInv(start, goal, width, height, accept, open - multiset{e}, cameFrom, g, tickMap, closed + {e.pos})
  {
    CloseKeepsParents(width, height, accept, cameFrom, tickMap, closed, closed + {e.pos});
    PopKeepsLive(goal, open, g, tickMap, closed, e);
    assert EntriesOK(goal, open - multiset{e}, g, tickMap, closed + {e.pos});
  }

  /** A minimal entry for a cell that is not closed carries that cell's best tick. */
  lemma PoppedTick(start: Position, goal: Position, width: int, height: int,
                   accept: (Position, Position, nat) -> bool,
                   open: multiset<Node>, cameFrom: map<Position, Position>,
                   g: map<Position, int>, tickMap: map<Position, nat>, closed: set<Position>, e: Node)
    requires SearchInv(start, goal, width, height, accept, open, cameFrom, g, tickMap, closed)
    requires e in open && IsMinimal(e, open) && e.pos !in closed
    ensures e.pos in tickMap && e.tick == tickMap[e.pos]
  {
    var live := Node(e.pos, g[e.pos] + Heuristic(e.pos, goal), tickMap[e.pos]);
    assert live in open;
  }

  /** Improving the score of a cell that is not closed keeps the came-from links valid. */
  lemma ImproveKeepsParents(start: Position, width: int, height: int,
                            accept: (Position, Position, nat) -> bool,
                            cameFrom: map<Position, Position>, tickMap: map<Position, nat>, closed: set<Position>,
                            current: Position, neighbor: Position)
    requires ParentsOK(cameFrom, tickMap, closed, width, height, accept)
    requires current in closed && current in tickMap
    requires neighbor !in closed && IsAdjacent(current, neighbor) && InGrid(neighbor, width, height)
    requires accept(current, neighbor, tickMap[current] + 1)
    ensures ParentsOK(cameFrom[neighbor := current], tickMap[neighbor := tickMap[current] + 1], closed,
                      width, height, accept)
  {
    var cameFrom', tickMap' := cameFrom[neighbor := current], tickMap[neighbor := tickMap[current] + 1];
    forall n | n in cameFrom'
      ensures ParentOK(n, cameFrom', tickMap', closed, width, height, accept)
    {
      if n != neighbor {
        assert ParentOK(n, cameFrom, tickMap, closed, width, height, accept);
      }
    }
  }

  /** Improving the score of a cell that is not closed keeps every entry honest. */
  lemma ImproveKeepsEntries(goal: Position, open: multiset<Node>, g: map<Position, int>,
                            tickMap: map<Position, nat>, closed: set<Position>,
                            neighbor: Position, tentative: int, nextTick: nat)
    requires g.Keys == tickMap.Keys
    requires EntriesOK(goal, open, g, tickMap, closed)
    requires neighbor in g ==> tentative < g[neighbor]
    ensures EntriesOK(goal, open + multiset{Node(neighbor, tentative + Heuristic(neighbor, goal), nextTick)},
                      g[neighbor := tentative], tickMap[neighbor := nextTick], closed)
  {
    var entry := Node(neighbor, tentative + Heuristic(neighbor, goal), nextTick);
    var open', g', tickMap' := open + multiset{entry}, g[neighbor := tentative], tickMap[neighbor := nextTick];
    forall x | x in open'
      ensures x.pos in g'
      ensures x.pos !in closed ==>
          x.f >= g'[x.pos] + Heuristic(x.pos, goal)
          && (x.f == g'[x.pos] + Heuristic(x.pos, goal) ==> x.tick == tickMap'[x.pos])
    {
      if x != entry {
        assert x in open;
      }
    }
  }

  /** Improving the score of a cell keeps a best-score entry for every open cell. */
  lemma ImproveKeepsLive(goal: Position, open: multiset<Node>, g: map<Position, int>,
                         tickMap: map<Position, nat>, closed: set<Position>,
                         neighbor: Position, tentative: int, nextTick: nat)
    requires g.Keys == tickMap.Keys
    requires LiveOK(goal, open, g, tickMap, closed)
    ensures LiveOK(goal, open + multiset{Node(neighbor, tentative + Heuristic(neighbor, goal), nextTick)},
                   g[neighbor := tentative], tickMap[neighbor := nextTick], closed)
  {
    var open', g', tickMap' := open + multiset{Node(neighbor, tentative + Heuristic(neighbor, goal), nextTick)},
                               g[neighbor := tentative], tickMap[neighbor := nextTick];
    forall n | n in g' && n !in closed
      ensures Node(n, g'[n] + Heuristic(n, goal), tickMap'[n]) in open'
    {
      if n != neighbor {
        assert Node(n, g[n] + Heuristic(n, goal), tickMap[n]) in open;
      }
    }
  }

  /**
   * `reconstruct_path`: follows the came-from links back from `target`. The
   * source pushes the predecessors and reverses at the end; prepending builds
   * the same sequence. The tick of each cell grows by one along the result.
   */
  method ReconstructPath(cameFrom: map<Position, Position>, tickMap: map<Position, nat>, target: Position)
    returns (path: seq<Position>)
    requires target in tickMap
    requires forall n :: n in cameFrom ==> n in tickMap && cameFrom[n] in tickMap && tickMap[n] == tickMap[cameFrom[n]] + 1
    ensures |path| >= 1 && path[|path| - 1] == target
    ensures path[0] !in cameFrom && path[0] in tickMap
    ensures forall i :: 1 <= i < |path| ==> path[i] in cameFrom && cameFrom[path[i]] == path[i - 1]
    ensures forall i :: 0 <= i < |path| ==> path[i] in tickMap && tickMap[path[i]] == tickMap[path[0]] + i
  {
    var current := target;
    path := [current];
    while current in cameFrom
      invariant |path| >= 1 && path[0] == current && path[|path| - 1] == target
      invariant current in tickMap
      invariant forall i :: 1 <= i < |path| ==> path[i] in cameFrom && cameFrom[path[i]] == path[i - 1]
      invariant forall i :: 0 <= i < |path| ==> path[i] in tickMap && tickMap[path[i]] == tickMap[current] + i
      decreases tickMap[current]
    {
      var prev := cameFrom[current];
      path := [prev] + path;
      current := prev;
    }
  }

  /** A reconstructed path to a reached cell is a search path from the start. */
  lemma ReconstructedIsSearchPath(start: Position, goal: Position, width: int, height: int,
                                  accept: (Position, Position, nat) -> bool,
                                  open: multiset<Node>, cameFrom: map<Position, Position>,
                                  g: map<Position, int>, tickMap: map<Position, nat>, closed: set<Position>,
                                  path: seq<Position>)
    requires SearchInv(start, goal, width, height, accept, open, cameFrom, g, tickMap, closed)
    requires |path| >= 1 && path[|path| - 1] == goal
    requires path[0] !in cameFrom && path[0] in tickMap
    requires forall i :: 1 <= i < |path| ==> path[i] in cameFrom && cameFrom[path[i]] == path[i - 1]
    requires forall i :: 0 <= i < |path| ==> path[i] in tickMap && tickMap[path[i]] == tickMap[path[0]] + i
    ensures IsSearchPath(path, start, goal, width, height, accept)
  {
    assert path[0] == start;
    forall i | 1 <= i < |path|
      ensures IsAdjacent(path[i - 1], path[i]) && InGrid(path[i], width, height) && accept(path[i - 1], path[i], i)
    {
      assert ParentOK(path[i], cameFrom, tickMap, closed, width, height, accept);
    }
  }

  /** The goal was popped: rebuild its path from the came-from links. */
  method PathToGoal(start: Position, goal: Position, width: int, height: int,
                    accept: (Position, Position, nat) -> bool,
                    open: multiset<Node>, cameFrom: map<Position, Position>,
                    g: map<Position, int>, tickMap: map<Position, nat>, closed: set<Position>)
    returns (path: seq<Position>)
    requires SearchInv(start, goal, width, height, accept, open, cameFrom, g, tickMap, closed)
    requires goal in g
    ensures IsSearchPath(path, start, goal, width, height, accept)
    ensures start == goal ==> path == [goal]
  {
    forall n | n in cameFrom
      ensures n in tickMap && cameFrom[n] in tickMap && tickMap[n] == tickMap[cameFrom[n]] + 1
    {
      assert ParentOK(n, cameFrom, tickMap, closed, width, height, accept);
    }
    path := ReconstructPath(cameFrom, tickMap, goal);
    ReconstructedIsSearchPath(start, goal, width, height, accept, open, cameFrom, g, tickMap, closed, path);
    if start == goal {
      assert tickMap[path[|path| - 1]] == tickMap[path[0]] + |path| - 1;
    }
  }

  /** One neighbour of the cell being expanded (the body of the neighbour loop). */
  method Relax(start: Position, goal: Position, width: int, height: int,
               accept: (Position, Position, nat) -> bool, cost: (Position, nat) -> int,
               current: Position, currentTick: nat, currentG: int, neighbor: Position,
               open: multiset<Node>, cameFrom: map<Position, Position>,
               g: map<Position, int>, tickMap: map<Position, nat>, closed: set<Position>)
    returns (open': multiset<Node>, cameFrom': map<Position, Position>, g': map<Position, int>, tickMap': map<Position, nat>)
    requires SearchInv(start, goal, width, height, accept, open, cameFrom, g, tickMap, closed)
    requires current in closed && start in closed && current in tickMap
    requires tickMap[current] == currentTick
    requires IsAdjacent(current, neighbor)
    ensures SearchInv(start, goal, width, height, accept, open', cameFrom', g', tickMap', closed)
    ensures current in tickMap' && tickMap'[current] == currentTick
  {
    open', cameFrom', g', tickMap' := open, cameFrom, g, tickMap;
    if neighbor in closed {
      return;
    }
    if !InGrid(neighbor, width, height) {
      return;
    }
    var nextTick := currentTick + 1;
    if !accept(current, neighbor, nextTick) {
      return;
    }
    var tentative := currentG + cost(neighbor, nextTick);
    if tentative < (if neighbor in g then g[neighbor] else I32Max) {
      ImproveKeepsParents(start, width, height, accept, cameFrom, tickMap, closed, current, neighbor);
      ImproveKeepsEntries(goal, open, g, tickMap, closed, neighbor, tentative, nextTick);
      ImproveKeepsLive(goal, open, g, tickMap, closed, neighbor, tentative, nextTick);
      cameFrom' := cameFrom[neighbor := current];
      g' := g[neighbor := tentative];
      tickMap' := tickMap[neighbor := nextTick];
      open' := open + multiset{Node(neighbor, tentative + Heuristic(neighbor, goal), nextTick)};
    }
  }

  /** The neighbour loop of one expansion, in the order North, East, South, West. */
  method ExpandNeighbors(start: Position, goal: Position, width: int, height: int,
                         accept: (Position, Position, nat) -> bool, cost: (Position, nat) -> int,
                         current: Position, currentTick: nat, currentG: int,
                         open: multiset<Node>, cameFrom: map<Position, Position>,
                         g: map<Position, int>, tickMap: map<Position, nat>, closed: set<Position>)
    returns (open': multiset<Node>, cameFrom': map<Position, Position>, g': map<Position, int>, tickMap': map<Position, nat>)
    requires SearchInv(start, goal, width, height, accept, open, cameFrom, g, tickMap, closed)
    requires current in closed && start in closed && current in tickMap
    requires tickMap[current] == currentTick
    ensures SearchInv(start, goal, width, height, accept, open', cameFrom', g', tickMap', closed)
  {
    open', cameFrom', g', tickMap' := open, cameFrom, g, tickMap;
    var ns := Neighbors(current);
    for i := 0 to 4
      invariant SearchInv(start, goal, width, height, accept, open', cameFrom', g', tickMap', closed)
      invariant current in tickMap' && tickMap'[current] == currentTick
    {
      open', cameFrom', g', tickMap' :=
        Relax(start, goal, width, height, accept, cost, current, currentTick, currentG, ns[i],
              open', cameFrom', g', tickMap', closed);
    }
  }

  /**
   * The expansion of a popped entry whose cell was not yet closed: `open` and
   * `closed` are the state just after the pop, `openBefore` and
   * `closedBefore` the state just before it.
   */
  method ExpandCurrent(start: Position, goal: Position, width: int, height: int,
                       accept: (Position, Position, nat) -> bool, cost: (Position, nat) -> int,
                       e: Node, currentG: int, ghost openBefore: multiset<Node>, ghost closedBefore: set<Position>,
                       open: multiset<Node>, cameFrom: map<Position, Position>,
                       g: map<Position, int>, tickMap: map<Position, nat>, closed: set<Position>)
    returns (open': multiset<Node>, cameFrom': map<Position, Position>, g': map<Position, int>, tickMap': map<Position, nat>)
    requires SearchInv(start, goal, width, height, accept, openBefore, cameFrom, g, tickMap, closedBefore)
    requires e in openBefore && IsMinimal(e, openBefore) && e.pos !in closedBefore
    requires open == openBefore - multiset{e} && closed == closedBefore + {e.pos}
    requires start in closed
    ensures SearchInv(start, goal, width, height, accept, open', cameFrom', g', tickMap', closed)
  {
    PopPreserves(start, goal, width, height, accept, openBefore, cameFrom, g, tickMap, closedBefore, e);
    PoppedTick(start, goal, width, height, accept, openBefore, cameFrom, g, tickMap, closedBefore, e);
    open', cameFrom', g', tickMap' :=
      ExpandNeighbors(start, goal, width, height, accept, cost, e.pos, e.tick, currentG,
                      open, cameFrom, g, tickMap, closed);
  }

  /**
   * One pop of the A* loop, for an entry `e` of minimal f-score that is not
   * the goal: an entry whose cell is already closed is dropped; otherwise
   * the cell is closed and counted, and expanded unless the count passes
   * `MaxExpansions`, in which case the search gives up.
   */
  method PopEntry(start: Position, goal: Position, width: int, height: int,
                  accept: (Position, Position, nat) -> bool, cost: (Position, nat) -> int,
                  e: Node, open: multiset<Node>, cameFrom: map<Position, Position>,
                  g: map<Position, int>, tickMap: map<Position, nat>, closed: set<Position>, expansions: nat)
    returns (open': multiset<Node>, cameFrom': map<Position, Position>, g': map<Position, int>,
             tickMap': map<Position, nat>, closed': set<Position>, expansions': nat, gaveUp: bool)
    requires SearchInv(start, goal, width, height, accept, open, cameFrom, g, tickMap, closed)
    requires e in open && IsMinimal(e, open) && e.pos != goal
    requires goal !in closed && expansions <= MaxExpansions
    requires expansions > 0 ==> start in closed
    requires expansions == 0 ==> closed == {} && open == multiset{Node(start, Heuristic(start, goal), 0)}
    ensures gaveUp ==> expansions' == MaxExpansions + 1
    ensures !gaveUp ==>
      && SearchInv(start, goal, width, height, accept, open', cameFrom', g', tickMap', closed')
      && goal !in closed' && expansions <= expansions' <= MaxExpansions
      && (expansions' > expansions || |open'| < |open|)
      && (e.pos == start ==> expansions' > 0)
      && (expansions' > 0 ==> start in closed')
  {
    var current := e.pos;
    ghost var openBefore, closedBefore := open, closed;
    open' := open - multiset{e};
    cameFrom', g', tickMap', closed', expansions' := cameFrom, g, tickMap, closed, expansions;
    gaveUp := false;
    if current in closed {
      PopPreserves(start, goal, width, height, accept, openBefore, cameFrom, g, tickMap, closedBefore, e);
      assert closed + {current} == closed;
      return;
    }
    closed' := closed + {current};
    expansions' := expansions + 1;
    if expansions' > MaxExpansions {
      gaveUp := true;
      return;
    }
    var currentG := if current in g then g[current] else 0;
    open', cameFrom', g', tickMap' :=
      ExpandCurrent(start, goal, width, height, accept, cost, e, currentG,
                    openBefore, closedBefore, open', cameFrom, g, tickMap, closed');
  }

  /**
   * The A* loop. A returned path is a search path (see `IsSearchPath`) and
   * was found within `MaxExpansions` expansions; the search gives up once a
   * cell would be the `MaxExpansions + 1`-th expanded.
   */
  method Search(width: int, height: int, start: Position, goal: Position,
                accept: (Position, Position, nat) -> bool, cost: (Position, nat) -> int)
    returns (r: Option<seq<Position>>, expansions: nat)
    ensures expansions <= MaxExpansions + 1
    ensures r.Some? ==> expansions <= MaxExpansions && IsSearchPath(r.value, start, goal, width, height, accept)
    ensures start == goal ==> r == Some([goal])
  {
    var open: multiset<Node> := multiset{Node(start, Heuristic(start, goal), 0)};
    var cameFrom: map<Position, Position> := map[];
    var g: map<Position, int> := map[start := 0];
    var tickMap: map<Position, nat> := map[start := 0];
    var closed: set<Position> := {};
    expansions := 0;
    assert ParentsOK(cameFrom, tickMap, closed, width, height, accept);
    while open != multiset{}
      invariant SearchInv(start, goal, width, height, accept, open, cameFrom, g, tickMap, closed)
      invariant expansions <= MaxExpansions
      invariant goal !in closed
      invariant expansions == 0 ==> closed == {} && open == multiset{Node(start, Heuristic(start, goal), 0)}
      invariant expansions > 0 ==> start in closed
      invariant start == goal ==> expansions == 0
      decreases MaxExpansions - expansions, |open|
    {
      MinimalExists(open);
      var e :| e in open && IsMinimal(e, open);
      if e.pos == goal {
        var path := PathToGoal(start, goal, width, height, accept, open, cameFrom, g, tickMap, closed);
        return Some(path), expansions;
      }
      var gaveUp;
      open, cameFrom, g, tickMap, closed, expansions, gaveUp :=
        PopEntry(start, goal, width, height, accept, cost, e, open, cameFrom, g, tickMap, closed, expansions);
      if gaveUp {
        return None, expansions;
      }
    }
    return None, expansions;
  }

  /**
   * `AStar::find_path_with_cost`. Only the map's width and height are read.
   * The walkability test and the step cost both receive the cell entered,
   * the goal and the tick at which the cell is entered.
   */
  method FindPathWithCost(width: int, height: int, start: Position, goal: Position,
                          isWalkableAtTick: (Position, Position, int) -> bool,
                          costFn: (Position, Position, int) -> int)
    returns (r: Option<seq<Position>>)
    ensures start == goal ==> r == Some([goal])
    ensures r.Some? ==>
      var path := r.value;
      && |path| >= 1 && path[0] == start && path[|path| - 1] == goal
      && forall i :: 1 <= i < |path| ==>
           IsAdjacent(path[i - 1], path[i]) && InGrid(path[i], width, height) && isWalkableAtTick(path[i], goal, i)
  {
    if start == goal {
      return Some([goal]);
    }
    var accept := (from: Position, to: Position, tick: nat) => isWalkableAtTick(to, goal, tick);
    var cost := (to: Position, tick: nat) => costFn(to, goal, tick);
    var expansions;
    r, expansions := Search(width, height, start, goal, accept, cost);
    if r.Some? {
      var path := r.value;
      forall i | 1 <= i < |path|
        ensures isWalkableAtTick(path[i], goal, i)
      {
        assert accept(path[i - 1], path[i], i);
      }
    }
  }
}
