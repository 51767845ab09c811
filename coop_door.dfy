/**
 * The cooperative door passage of the rule-based planner
 * (planners/heuristic/strategies/cooperative_door_passage.rs): in a
 * two-player game one player waits on a pressure plate while the other
 * walks through the door the plate holds open, to the cell just beyond it.
 *
 * The strategy is a small state machine,
 *   Setup -> ExecuteNavigating -> ExecuteReleasing -> ExecuteWaiting -> Setup,
 * and remembers the tick at which each colour's plate was last used, so
 * that colours are tried least recently used first.
 */
module CoopDoorPassages {
  import opened Wrappers
  import opened Types
  import opened Swoq
  import opened Goals
  import opened StrategyPlanners

  datatype CoopState = Setup | ExecuteNavigating | ExecuteReleasing | ExecuteWaiting

  /**
   * What the strategy reads of the planner state and the world. World
   * queries that are not part of this model are given as values:
   * `twoPlayerMode`, `anyPlayerHasFrontier`, `hasBouldersNotOnPlates`,
   * `hasKey(player, colour)` and the path search `findPath(from, to)`.
   */
  datatype CoopView = CoopView(
    positions: seq<Position>,
    previousGoals: seq<Option<Goal>>,
    currentGoals: seq<Option<Goal>>,
    tick: int,
    tiles: map<Position, Tile>,
    doors: map<Color, seq<Position>>,
    plates: map<Color, seq<Position>>,
    twoPlayerMode: bool,
    anyPlayerHasFrontier: bool,
    hasBouldersNotOnPlates: bool,
    hasKey: (nat, Color) -> bool,
    findPath: (Position, Position) -> Option<seq<Position>>)

  /** One planner record per player, and two players in two-player mode. */
  predicate ViewOK(v: CoopView)
  {
    && |v.previousGoals| == |v.positions| && |v.currentGoals| == |v.positions|
    && (v.twoPlayerMode ==> |v.positions| == 2)
  }

  /** No goals, for `n` players. */
  function NoGoals(n: nat): (r: seq<Option<Goal>>)
    ensures |r| == n && AllPlayersHaveNoGoals(r)
  {
    seq(n, i => None)
  }

  /** A cooperation read off the previous goals: who waits on which plate, who passes which door to where. */
  datatype Pair = Pair(waiter: nat, plate: Position, passer: nat, door: Position, target: Position)

  /** Player `w` waits on a plate of the colour player `p` passes a door of. */
  predicate Cooperating(prev: seq<Option<Goal>>, w: nat, p: nat)
    requires w < |prev| && p < |prev|
  {
    && prev[w].Some? && prev[w].value.WaitOnTile?
    && prev[p].Some? && prev[p].value.PassThroughDoor?
    && prev[p].value.passColor == prev[w].value.waitColor
  }

  /**
   * `find_cooperation_pair`: player 0 is tried as the waiter first, then
   * player 1.
   */
  function FindCooperationPair(prev: seq<Option<Goal>>): (r: Option<Pair>)
    requires |prev| >= 2
    ensures r.Some? ==>
      && r.value.waiter < 2 && r.value.passer == 1 - r.value.waiter
      && Cooperating(prev, r.value.waiter, r.value.passer)
      && prev[r.value.waiter].value.tile == r.value.plate
      && prev[r.value.passer].value.doorPos == r.value.door
      && prev[r.value.passer].value.targetPos == r.value.target
      && (r.value.waiter == 1 ==> !Cooperating(prev, 0, 1))
    ensures r.None? <==> !Cooperating(prev, 0, 1) && !Cooperating(prev, 1, 0)
  {
    if Cooperating(prev, 0, 1) then
      Some(Pair(0, prev[0].value.tile, 1, prev[1].value.doorPos, prev[1].value.targetPos))
    else if Cooperating(prev, 1, 0) then
      Some(Pair(1, prev[1].value.tile, 0, prev[0].value.doorPos, prev[0].value.targetPos))
    else None
  }

  /**
   * `has_active_door_cooperation`: some player waits on a plate while the
   * other passes a door of the same colour.
   */
  function HasActiveDoorCooperation(prev: seq<Option<Goal>>): (r: bool)
    requires |prev| == 2
  {
    Cooperating(prev, 0, 1) || Cooperating(prev, 1, 0)
  }

  /** With two players, an active cooperation is exactly one that `find_cooperation_pair` finds. */
  lemma ActiveIffPairFound(prev: seq<Option<Goal>>)
    requires |prev| == 2
    ensures HasActiveDoorCooperation(prev) <==> FindCooperationPair(prev).Some?
  {
  }

  /** The colour of a WaitOnTile goal. */
  function WaitColor(g: Option<Goal>): Option<Color>
  {
    if g.Some? && g.value.WaitOnTile? then Some(g.value.waitColor) else None
  }

  /** The colour of a PassThroughDoor goal. */
  function PassColor(g: Option<Goal>): Option<Color>
  {
    if g.Some? && g.value.PassThroughDoor? then Some(g.value.passColor) else None
  }

  /** `a.or(b)`. */
  function OrElse(a: Option<Color>, b: Option<Color>): Option<Color>
  {
    if a.Some? then a else b
  }

  /** Option<Color> with Red as the fallback. */
  function ColorOrRed(c: Option<Color>): Color
  {
    if c.Some? then c.value else Red
  }

  /**
   * `calculate_target_beyond_door`: the cell mirrored from the last step
   * of the path through the door, that is 2 * door - last.
   */
  function CalculateTargetBeyondDoor(door: Position, pathToDoor: seq<Position>): (r: Option<Position>)
    ensures r.None? <==> |pathToDoor| == 0
    ensures r.Some? ==> var last := pathToDoor[|pathToDoor| - 1];
      && r.value.x - door.x == door.x - last.x && r.value.y - door.y == door.y - last.y
  {
    if |pathToDoor| == 0 then None
    else
      var last := pathToDoor[|pathToDoor| - 1];
      var dx := door.x - last.x;
      var dy := door.y - last.y;
      Some(Position(door.x + dx, door.y + dy))
  }

  /** When the path ends next to the door, the target is the door's neighbour on the far side. */
  lemma TargetIsBeyondDoor(door: Position, pathToDoor: seq<Position>)
    requires |pathToDoor| > 0 && IsAdjacent(pathToDoor[|pathToDoor| - 1], door)
    ensures var r := CalculateTargetBeyondDoor(door, pathToDoor);
      && r.Some? && IsAdjacent(door, r.value)
      && Distance(pathToDoor[|pathToDoor| - 1], r.value) == 2
  {
  }

  /** What the setup phase learns about one player for one plate and door. */
  datatype PlayerReachability = PlayerReachability(canReachPlate: bool, canReachDoor: bool,
                                                   distanceToPlate: int, pathToDoor: Option<seq<Position>>)

  /** A door neighbour a player may stand on: a seen Empty tile or the player's own cell. */
  predicate ValidDoorSide(v: CoopView, playerPos: Position, n: Position)
  {
    TileAt(v.tiles, n) == Some(Empty) || n == playerPos
  }

  /**
   * The `find_map` over the door's neighbours: the path to the first valid
   * neighbour that has one.
   */
  function FirstPathToNeighbor(v: CoopView, playerPos: Position, ns: seq<Position>): (r: Option<seq<Position>>)
    ensures r.Some? ==> exists k :: 0 <= k < |ns| && ValidDoorSide(v, playerPos, ns[k]) && v.findPath(playerPos, ns[k]) == r
    ensures r.None? <==> forall k :: 0 <= k < |ns| && ValidDoorSide(v, playerPos, ns[k]) ==> v.findPath(playerPos, ns[k]).None?
  {
    if ns == [] then None
    else if ValidDoorSide(v, playerPos, ns[0]) && v.findPath(playerPos, ns[0]).Some? then v.findPath(playerPos, ns[0])
    else
      var r := FirstPathToNeighbor(v, playerPos, ns[1..]);
      assert forall k :: 1 <= k < |ns| ==> ns[k] == ns[1..][k - 1];
      r
  }

  /** `player_can_reach_plate_and_door`; an unreachable plate counts as distance i32::MAX. */
  function PlayerCanReachPlateAndDoor(v: CoopView, playerPos: Position, plate: Position, door: Position): (r: PlayerReachability)
    ensures r.canReachPlate <==> v.findPath(playerPos, plate).Some?
    ensures r.distanceToPlate == if r.canReachPlate then |v.findPath(playerPos, plate).value| else I32Max
    ensures r.canReachDoor <==> r.pathToDoor.Some?
    ensures r.pathToDoor == FirstPathToNeighbor(v, playerPos, Neighbors(door))
  {
    var pathToPlate := v.findPath(playerPos, plate);
    var pathToDoor := FirstPathToNeighbor(v, playerPos, Neighbors(door));
    PlayerReachability(pathToPlate.Some?, pathToDoor.Some?,
                       if pathToPlate.Some? then |pathToPlate.value| else I32Max, pathToDoor)
  }

  /** `is_target_already_reachable`. */
  predicate IsTargetAlreadyReachable(v: CoopView, playerIndex: nat, target: Position)
    requires playerIndex < |v.positions|
  {
    v.findPath(v.positions[playerIndex], target).Some?
  }

  /** A chosen cooperation: the goals the setup phase hands out. */
  datatype Choice = Choice(waiter: nat, passer: nat, color: Color, plate: Position, doorSide: Position, target: Position)

  /**
   * The setup phase's verdict for one plate and one door of a colour: the
   * player closer to the plate (player 0 on a tie) waits, the other passes,
   * provided it has a path next to the door and the cell beyond the door
   * is not already reachable for it.
   */
  function Selection(v: CoopView, color: Color, plate: Position, door: Position): (r: Option<Choice>)
    requires |v.positions| == 2
  {
    var p0 := PlayerCanReachPlateAndDoor(v, v.positions[0], plate, door);
    var p1 := PlayerCanReachPlateAndDoor(v, v.positions[1], plate, door);
    var waiterIsFirst := p0.distanceToPlate <= p1.distanceToPlate;
    var waiter: nat, passer: nat := if waiterIsFirst then 0 else 1, if waiterIsFirst then 1 else 0;
    var passerReach := if waiterIsFirst then p1 else p0;
    if passerReach.pathToDoor.None? then None
    else
      var path := passerReach.pathToDoor.value;
      var target := CalculateTargetBeyondDoor(door, path);
      if target.None? then None
      else if IsTargetAlreadyReachable(v, passer, target.value) then None
      else Some(Choice(waiter, passer, color, plate, path[|path| - 1], target.value))
  }

  /** What a selected cooperation consists of. */
  lemma SelectionSound(v: CoopView, color: Color, plate: Position, door: Position)
    requires |v.positions| == 2
    ensures var r := Selection(v, color, plate, door);
      r.Some? ==>
      var p0 := PlayerCanReachPlateAndDoor(v, v.positions[0], plate, door);
      var p1 := PlayerCanReachPlateAndDoor(v, v.positions[1], plate, door);
      && r.value.waiter < 2 && r.value.passer == 1 - r.value.waiter
      && (r.value.waiter == 0 <==> p0.distanceToPlate <= p1.distanceToPlate)
      && r.value.color == color && r.value.plate == plate
      && (var path := FirstPathToNeighbor(v, v.positions[r.value.passer], Neighbors(door));
          && path.Some? && |path.value| > 0 && r.value.doorSide == path.value[|path.value| - 1]
          && CalculateTargetBeyondDoor(door, path.value) == Some(r.value.target))
      && !IsTargetAlreadyReachable(v, r.value.passer, r.value.target)
  {
  }

  /** The waiter is player 0 or 1 and the passer is the other one. */
  predicate ValidRoles(c: Choice)
  {
    c.waiter < 2 && c.passer == 1 - c.waiter
  }

  /** The goals handed out for a choice: the waiter waits on the plate, the passer passes with the same colour. */
  function ChoiceGoals(c: Choice): (r: seq<Option<Goal>>)
    requires ValidRoles(c)
    ensures |r| == 2
    ensures r[c.waiter] == Some(WaitOnTile(c.color, c.plate))
    ensures r[c.passer] == Some(PassThroughDoor(c.color, c.doorSide, c.target))
  {
    [None, None][c.waiter := Some(WaitOnTile(c.color, c.plate))][c.passer := Some(PassThroughDoor(c.color, c.doorSide, c.target))]
  }

  /** Some player holds a key of this colour. */
  predicate AnyPlayerHasKey(v: CoopView, color: Color)
  {
    exists i :: 0 <= i < |v.positions| && v.hasKey(i, color)
  }

  /** A colour the setup phase looks into: no key held, some door of it seen, and plates of it tracked. */
  predicate ColorEligible(v: CoopView, color: Color)
  {
    && !AnyPlayerHasKey(v, color)
    && color in v.doors && |v.doors[color]| > 0
    && color in v.plates
  }

  /** No plate and door of this colour yields a cooperation. */
  predicate NoSelectionFor(v: CoopView, color: Color)
    requires |v.positions| == 2
  {
    ColorEligible(v, color) ==> NoneIn(v, color, v.plates[color], v.doors[color])
  }

  /** The setup phase runs only in a two-player game where nobody has a goal and nothing else is left to do. */
  predicate SetupGate(v: CoopView, currentGoals: seq<Option<Goal>>)
  {
    v.twoPlayerMode && AllPlayersHaveNoGoals(currentGoals) && !v.anyPlayerHasFrontier && !v.hasBouldersNotOnPlates
  }

  /** The tick a colour's plate was last used at, i32::MIN when never. */
  function UsageKey(usage: map<Color, int>, c: Color): int
  {
    if c in usage then usage[c] else I32Min
  }

  function ColorRank(c: Color): nat
  {
    match c
    case Red => 0
    case Green => 1
    case Blue => 2
  }

  /** `a` sorts before `b`: used longer ago, or used at the same tick and earlier in Red, Green, Blue. */
  predicate UsedBefore(usage: map<Color, int>, a: Color, b: Color)
  {
    UsageKey(usage, a) < UsageKey(usage, b) || (UsageKey(usage, a) == UsageKey(usage, b) && ColorRank(a) < ColorRank(b))
  }

  predicate SortedByUsage(usage: map<Color, int>, cs: seq<Color>)
  {
    forall i, j :: 0 <= i < j < |cs| ==> UsedBefore(usage, cs[i], cs[j])
  }

  lemma UsedBeforeTransitive(usage: map<Color, int>, a: Color, b: Color, c: Color)
    requires UsedBefore(usage, a, b) && UsedBefore(usage, b, c)
    ensures UsedBefore(usage, a, c)
  {
  }

  lemma UsedBeforeTotal(usage: map<Color, int>, a: Color, b: Color)
    requires a != b
    ensures UsedBefore(usage, a, b) || UsedBefore(usage, b, a)
  {
    assert ColorRank(a) != ColorRank(b);
  }

  function InsertByUsage(usage: map<Color, int>, c: Color, sorted: seq<Color>): (r: seq<Color>)
    requires SortedByUsage(usage, sorted) && c !in sorted
    ensures |r| == |sorted| + 1
    ensures forall x :: x in r <==> x == c || x in sorted
    ensures SortedByUsage(usage, r)
  {
    if sorted == [] then [c]
    else if UsedBefore(usage, c, sorted[0]) then
      assert forall j :: 0 <= j < |sorted| ==> UsedBefore(usage, c, sorted[j]) by {
        forall j | 0 <= j < |sorted| ensures UsedBefore(usage, c, sorted[j]) {
          if j > 0 {
            UsedBeforeTransitive(usage, c, sorted[0], sorted[j]);
          }
        }
      }
      [c] + sorted
    else
      var rest := InsertByUsage(usage, c, sorted[1..]);
      assert sorted[0] != c by {
        assert sorted[0] in sorted;
      }
      UsedBeforeTotal(usage, c, sorted[0]);
      assert forall j :: 0 <= j < |rest| ==> UsedBefore(usage, sorted[0], rest[j]) by {
        forall j | 0 <= j < |rest| ensures UsedBefore(usage, sorted[0], rest[j]) {
          assert rest[j] in rest;
          if rest[j] != c {
            var k :| 0 <= k < |sorted[1..]| && sorted[1..][k] == rest[j];
            assert sorted[k + 1] == rest[j];
          }
        }
      }
      var r := [sorted[0]] + rest;
      assert forall x :: x in r <==> x == c || x in sorted by {
        assert sorted == [sorted[0]] + sorted[1..];
      }
      r
  }

  function SortColorsByUsage(usage: map<Color, int>, cs: seq<Color>): (r: seq<Color>)
    requires forall i, j :: 0 <= i < j < |cs| ==> cs[i] != cs[j]
    ensures |r| == |cs|
    ensures forall x :: x in r <==> x in cs
    ensures SortedByUsage(usage, r)
  {
    if cs == [] then []
    else
      var rest := SortColorsByUsage(usage, cs[1..]);
      assert cs == [cs[0]] + cs[1..];
      InsertByUsage(usage, cs[0], rest)
  }

  /**
   * The order the setup phase tries colours in: `sort_by_key` (a stable
   * sort) of Red, Green, Blue by last usage. Every colour appears exactly
   * once, least recently used first, ties in the order Red, Green, Blue.
   */
  function ColorsByUsage(usage: map<Color, int>): (r: seq<Color>)
    ensures |r| == 3 && forall c :: c in r
    ensures forall i, j :: 0 <= i < j < |r| ==> r[i] != r[j]
    ensures forall i, j :: 0 <= i < j < |r| ==> UsageKey(usage, r[i]) <= UsageKey(usage, r[j])
    ensures forall i, j :: 0 <= i < j < |r| && UsageKey(usage, r[i]) == UsageKey(usage, r[j]) ==> ColorRank(r[i]) < ColorRank(r[j])
  {
    var r := SortColorsByUsage(usage, AllColors);
    assert forall c :: c in r by {
      forall c ensures c in r {
        assert c == AllColors[ColorRank(c)];
      }
    }
    r
  }

  /** No plate and door from these lists yields a cooperation. */
  predicate NoneIn(v: CoopView, color: Color, plates: seq<Position>, doors: seq<Position>)
    requires |v.positions| == 2
  {
    forall pi, di :: 0 <= pi < |plates| && 0 <= di < |doors| ==> Selection(v, color, plates[pi], doors[di]).None?
  }

  /**
   * Plate `pi` and door `di` give `choice`, and no earlier plate, nor an
   * earlier door with the same plate, gives one.
   */
  predicate FirstIn(v: CoopView, color: Color, plates: seq<Position>, doors: seq<Position>, pi: nat, di: nat, choice: Choice)
    requires |v.positions| == 2
  {
    && pi < |plates| && di < |doors|
    && Selection(v, color, plates[pi], doors[di]) == Some(choice) && ValidRoles(choice)
    && (forall pj, dj :: 0 <= pj < pi && 0 <= dj < |doors| ==> Selection(v, color, plates[pj], doors[dj]).None?)
    && (forall dj :: 0 <= dj < di ==> Selection(v, color, plates[pi], doors[dj]).None?)
  }

  /** The first cooperation of an eligible colour, in tracker order. */
  predicate FirstChoiceFor(v: CoopView, color: Color, pi: nat, di: nat, choice: Choice)
    requires |v.positions| == 2
  {
    ColorEligible(v, color) && FirstIn(v, color, v.plates[color], v.doors[color], pi, di, choice)
  }

  /**
   * One colour of the setup phase: skipped when a player holds its key or
   * no door or plate of it is tracked, otherwise the first plate and door
   * that yield a cooperation.
   */
  method TryColor(v: CoopView, color: Color) returns (r: Option<(nat, nat, Choice)>)
    requires |v.positions| == 2
    ensures r.None? <==> NoSelectionFor(v, color)
    ensures r.Some? ==> FirstChoiceFor(v, color, r.value.0, r.value.1, r.value.2)
  {
    if AnyPlayerHasKey(v, color) {
      return None;
    }
    if color !in v.doors || |v.doors[color]| == 0 || color !in v.plates {
      return None;
    }
    r := FirstSelection(v, color, v.plates[color], v.doors[color]);
  }

  /**
   * The inner loops of the setup phase for one colour: the first plate,
   * and for it the first door, in tracker order, that yields a cooperation.
   */
  method FirstSelection(v: CoopView, color: Color, plates: seq<Position>, doors: seq<Position>)
    returns (r: Option<(nat, nat, Choice)>)
    requires |v.positions| == 2
    ensures r.None? <==> NoneIn(v, color, plates, doors)
    ensures r.Some? ==> FirstIn(v, color, plates, doors, r.value.0, r.value.1, r.value.2)
  {
    for pi := 0 to |plates|
      invariant forall pj, dj :: 0 <= pj < pi && 0 <= dj < |doors| ==> Selection(v, color, plates[pj], doors[dj]).None?
    {
      var found := FirstDoor(v, color, plates[pi], doors);
      if found.Some? {
        return Some((pi, found.value.0, found.value.1));
      }
    }
    return None;
  }

  /** The innermost loop: the first door that yields a cooperation with this plate. */
  method FirstDoor(v: CoopView, color: Color, plate: Position, doors: seq<Position>) returns (r: Option<(nat, Choice)>)
    requires |v.positions| == 2
    ensures r.None? <==> forall di :: 0 <= di < |doors| ==> Selection(v, color, plate, doors[di]).None?
    ensures r.Some? ==> && r.value.0 < |doors| && Selection(v, color, plate, doors[r.value.0]) == Some(r.value.1)
                        && ValidRoles(r.value.1)
                        && forall dj :: 0 <= dj < r.value.0 ==> Selection(v, color, plate, doors[dj]).None?
  {
    for di := 0 to |doors|
      invariant forall dj :: 0 <= dj < di ==> Selection(v, color, plate, doors[dj]).None?
    {
      var choice := Selection(v, color, plate, doors[di]);
      if choice.Some? {
        SelectionSound(v, color, plate, doors[di]);
        return Some((di, choice.value));
      }
    }
    return None;
  }

  /** No colour gives a selection once none of the three listed colours does. */
  lemma NoSelectionForAny(v: CoopView, order: seq<Color>)
    requires |v.positions| == 2
    requires |order| == 3 && forall c :: c in order
    requires forall cj :: 0 <= cj < 3 ==> NoSelectionFor(v, order[cj])
    ensures forall c :: NoSelectionFor(v, c)
  {
    forall c ensures NoSelectionFor(v, c) {
      assert c in order;
      var k :| 0 <= k < 3 && order[k] == c;
    }
  }

  /**
   * The colour loop of `setup_phase`: the first colour of `order` for
   * which some plate and door give a selection, with that selection.
   */
  method FirstColorSelection(v: CoopView, order: seq<Color>) returns (r: Option<(nat, nat, nat, Choice)>)
    requires |v.positions| == 2 && |order| == 3
    ensures r.None? <==> forall cj :: 0 <= cj < 3 ==> NoSelectionFor(v, order[cj])
    ensures r.Some? ==>
      var (ci, pi, di, choice) := r.value;
      && ci < 3
      && (forall cj :: 0 <= cj < ci ==> NoSelectionFor(v, order[cj]))
      && FirstChoiceFor(v, order[ci], pi, di, choice)
  {
    for ci := 0 to 3
      invariant forall cj :: 0 <= cj < ci ==> NoSelectionFor(v, order[cj])
    {
      var found := TryColor(v, order[ci]);
      if found.Some? {
        var (pi, di, choice) := found.value;
        return Some((ci, pi, di, choice));
      }
    }
    return None;
  }

  /** `check_state_transition` on values: the state after one step along the cycle. */
  function NextState(v: CoopView, s: CoopState): (r: CoopState)
    requires ViewOK(v) && v.twoPlayerMode
  {
    var pair := FindCooperationPair(v.previousGoals);
    match s
    case ExecuteNavigating =>
      if pair.Some? && v.positions[pair.value.passer] == pair.value.target then ExecuteReleasing else ExecuteNavigating
    case ExecuteReleasing =>
      if pair.Some? && v.positions[pair.value.waiter] != pair.value.plate then ExecuteWaiting else ExecuteReleasing
    case ExecuteWaiting =>
      if pair.None? then Setup else ExecuteWaiting
    case Setup => Setup
  }

  /** The state after an execute state in the cycle Navigating, Releasing, Waiting, Setup. */
  function Successor(s: CoopState): CoopState
  {
    match s
    case ExecuteNavigating => ExecuteReleasing
    case ExecuteReleasing => ExecuteWaiting
    case ExecuteWaiting => Setup
    case Setup => Setup
  }

  /**
   * A transition either stays or moves one place along the cycle; it
   * leaves Setup alone, and it ends a passage (back to Setup) only from
   * Waiting, once no cooperation pair is left.
   */
  lemma NextStateOneStep(v: CoopView, s: CoopState)
    requires ViewOK(v) && v.twoPlayerMode
    ensures NextState(v, s) == s || NextState(v, s) == Successor(s)
    ensures s == Setup ==> NextState(v, s) == Setup
    ensures s != Setup && NextState(v, s) == Setup <==> s == ExecuteWaiting && FindCooperationPair(v.previousGoals).None?
  {
  }

  /**
   * `execute_navigating`: while the passer has not reached its target the
   * pair keeps its goals (the waiter only if it is not busy with an
   * enemy); otherwise back to Setup with no goals.
   */
  ghost predicate NavigatingOutcome(v: CoopView, oldState: CoopState, goals: seq<Option<Goal>>, state: CoopState)
    requires ViewOK(v) && v.twoPlayerMode
  {
    && |goals| == 2
    && var pair := FindCooperationPair(v.previousGoals);
    if pair.Some? && v.positions[pair.value.passer] != pair.value.target then
      var p := pair.value;
      var color := v.previousGoals[p.waiter].value.waitColor;
      && state == oldState
      && goals[p.passer] == Some(PassThroughDoor(color, p.door, p.target))
      && goals[p.waiter] == (if FightingEnemy(v.currentGoals[p.waiter]) then None else Some(WaitOnTile(color, p.plate)))
    else state == Setup && goals == NoGoals(2)
  }

  /**
   * `execute_releasing`: while the waiter still stands on the plate only
   * the passer has a goal; otherwise back to Setup with no goals.
   */
  ghost predicate ReleasingOutcome(v: CoopView, oldState: CoopState, goals: seq<Option<Goal>>, state: CoopState)
    requires ViewOK(v) && v.twoPlayerMode
  {
    && |goals| == 2
    && var pair := FindCooperationPair(v.previousGoals);
    if pair.Some? && v.positions[pair.value.waiter] == pair.value.plate then
      var p := pair.value;
      && state == oldState
      && goals[p.waiter] == None
      && goals[p.passer] == Some(PassThroughDoor(v.previousGoals[p.passer].value.passColor, p.door, p.target))
    else state == Setup && goals == NoGoals(2)
  }

  /** `execute_waiting`: the player at its pass target keeps its goal; otherwise back to Setup with no goals. */
  ghost predicate WaitingOutcome(v: CoopView, oldState: CoopState, goals: seq<Option<Goal>>, state: CoopState)
    requires ViewOK(v) && v.twoPlayerMode
  {
    && |goals| == 2
    && if AtPassTarget(v, 0) then state == oldState && goals == [v.previousGoals[0], None]
       else if AtPassTarget(v, 1) then state == oldState && goals == [None, v.previousGoals[1]]
       else state == Setup && goals == NoGoals(2)
  }

  /** The handler of the state `mid` reached by the transition. */
  ghost predicate ExecuteOutcome(v: CoopView, mid: CoopState, goals: seq<Option<Goal>>, state: CoopState)
    requires ViewOK(v) && v.twoPlayerMode
  {
    match mid
    case ExecuteNavigating => NavigatingOutcome(v, mid, goals, state)
    case ExecuteReleasing => ReleasingOutcome(v, mid, goals, state)
    case ExecuteWaiting => WaitingOutcome(v, mid, goals, state)
    case Setup => state == Setup && goals == NoGoals(2)
  }

  /**
   * `setup`: no goals and nothing changed unless the gate is open; with
   * the gate open, either no colour offers a selection, or the first
   * colour in least-recently-used order that does gives its first choice,
   * the passage starts and that colour's usage is stamped with the tick.
   */
  ghost predicate SetupOutcome(v: CoopView, currentGoals: seq<Option<Goal>>, oldState: CoopState, oldUsage: map<Color, int>,
                               goals: seq<Option<Goal>>, chosen: Option<(nat, nat, nat, Choice)>,
                               state: CoopState, usage: map<Color, int>)
    requires ViewOK(v)
  {
    && (!SetupGate(v, currentGoals) ==> chosen.None?)
    && (chosen.None? ==>
          && goals == NoGoals(|v.positions|) && state == oldState && usage == oldUsage
          && (SetupGate(v, currentGoals) ==> forall c :: NoSelectionFor(v, c)))
    && (chosen.Some? ==>
          var (ci, pi, di, choice) := chosen.value;
          var order := ColorsByUsage(oldUsage);
          && SetupGate(v, currentGoals) && ci < 3
          && (forall cj :: 0 <= cj < ci ==> NoSelectionFor(v, order[cj]))
          && FirstChoiceFor(v, order[ci], pi, di, choice)
          && goals == ChoiceGoals(choice)
          && state == ExecuteNavigating
          && usage == oldUsage[order[ci] := v.tick])
  }

  class CooperativeDoorPassageStrategy {
    var state: CoopState
    /** The tick at which each colour's door was last opened with a plate. */
    var lastPlateDoorUsage: map<Color, int>

    constructor ()
      ensures state == Setup && lastPlateDoorUsage == map[]
    {
      state := Setup;
      lastPlateDoorUsage := map[];
    }

    /** `is_emergency`: the passage, once started, goes before every other strategy. */
    predicate IsEmergency()
      reads this
    {
      state != Setup
    }

    /** `prioritize`: only while the passage is under way and the two previous goals still cooperate. */
    predicate Prioritize(v: CoopView)
      requires |v.previousGoals| == 2
      reads this
    {
      match state
      case Setup => false
      case _ => HasActiveDoorCooperation(v.previousGoals)
    }

    /** `check_state_transition`: one step along the cycle, never more. */
    method CheckStateTransition(v: CoopView)
      requires ViewOK(v)
      modifies this`state
      ensures !v.twoPlayerMode ==> state == old(state)
      ensures v.twoPlayerMode ==> state == NextState(v, old(state))
    {
      if !v.twoPlayerMode {
        return;
      }
      var pair := FindCooperationPair(v.previousGoals);
      match state {
        case ExecuteNavigating =>
          if pair.Some? && v.positions[pair.value.passer] == pair.value.target {
            state := ExecuteReleasing;
          }
        case ExecuteReleasing =>
          if pair.Some? && v.positions[pair.value.waiter] != pair.value.plate {
            state := ExecuteWaiting;
          }
        case ExecuteWaiting =>
          if pair.None? {
            state := Setup;
          }
        case Setup =>
      }
    }

    /**
     * `execute_navigating`: while the passer has not reached its target
     * the pair keeps its goals (the waiter only if it is not busy with an
     * enemy); otherwise back to Setup with no goals.
     */
    method ExecuteNavigatingPhase(v: CoopView) returns (goals: seq<Option<Goal>>)
      requires ViewOK(v) && v.twoPlayerMode
      modifies this`state
      ensures NavigatingOutcome(v, old(state), goals, state)
    {
      var pair := FindCooperationPair(v.previousGoals);
      if pair.Some? {
        var p := pair.value;
        if v.positions[p.passer] != p.target {
          var waiterColor := WaitColor(v.previousGoals[p.waiter]);
          var passerColor := PassColor(v.previousGoals[p.passer]);
          var color := ColorOrRed(OrElse(waiterColor, passerColor));
          goals := [None, None];
          if !FightingEnemy(v.currentGoals[p.waiter]) {
            goals := goals[p.waiter := Some(WaitOnTile(color, p.plate))];
          }
          goals := goals[p.passer := Some(PassThroughDoor(color, p.door, p.target))];
          return;
        }
      }
      state := Setup;
      goals := NoGoals(2);
    }

    /**
     * `execute_releasing`: while the waiter is still on the plate it is
     * released and the passer stays at its target; otherwise back to
     * Setup with no goals.
     */
    method ExecuteReleasingPhase(v: CoopView) returns (goals: seq<Option<Goal>>)
      requires ViewOK(v) && v.twoPlayerMode
      modifies this`state
      ensures ReleasingOutcome(v, old(state), goals, state)
    {
      var pair := FindCooperationPair(v.previousGoals);
      if pair.Some? {
        var p := pair.value;
        if v.positions[p.waiter] == p.plate {
          goals := [None, None];
          goals := goals[p.waiter := None];
          goals := goals[p.passer := Some(PassThroughDoor(ColorOrRed(PassColor(v.previousGoals[p.passer])), p.door, p.target))];
          return;
        }
      }
      state := Setup;
      goals := NoGoals(2);
    }

    /**
     * `execute_waiting`: the first player whose previous goal is a door
     * passage and who stands at its target stays frozen there and the
     * other is free; otherwise back to Setup with no goals.
     */
    method ExecuteWaitingPhase(v: CoopView) returns (goals: seq<Option<Goal>>)
      requires ViewOK(v) && v.twoPlayerMode
      modifies this`state
      ensures WaitingOutcome(v, old(state), goals, state)
    {
      for playerIndex := 0 to 2
        invariant forall k :: 0 <= k < playerIndex ==> !AtPassTarget(v, k)
      {
        var prev := v.previousGoals[playerIndex];
        if prev.Some? && prev.value.PassThroughDoor? {
          if v.positions[playerIndex] == prev.value.targetPos {
            goals := [None, None];
            goals := goals[playerIndex := Some(PassThroughDoor(prev.value.passColor, prev.value.doorPos, prev.value.targetPos))];
            goals := goals[1 - playerIndex := None];
            return;
          }
        }
      }
      state := Setup;
      goals := NoGoals(2);
    }

    /**
     * `setup_phase`: in a two-player game where nobody has a goal, nothing
     * is left to explore and every boulder sits on a plate, looks for a
     * plate and a door of one colour, colours least recently used first,
     * that let one player hold the door for the other. On success the
     * colour's usage becomes the current tick and the machine starts
     * navigating.
     */
    method SetupPhase(v: CoopView, currentGoals: seq<Option<Goal>>)
      returns (goals: seq<Option<Goal>>, ghost chosen: Option<(nat, nat, nat, Choice)>)
      requires ViewOK(v)
      modifies this
      ensures SetupOutcome(v, currentGoals, old(state), old(lastPlateDoorUsage), goals, chosen, state, lastPlateDoorUsage)
    {
      chosen := None;
      goals := NoGoals(|v.positions|);
      if !v.twoPlayerMode || !AllPlayersHaveNoGoals(currentGoals) || v.anyPlayerHasFrontier || v.hasBouldersNotOnPlates {
        return;
      }
      var colorsByUsage := ColorsByUsage(lastPlateDoorUsage);
      var found := FirstColorSelection(v, colorsByUsage);
      if found.None? {
        NoSelectionForAny(v, colorsByUsage);
        return;
      }
      var (ci, pi, di, choice) := found.value;
      lastPlateDoorUsage := lastPlateDoorUsage[colorsByUsage[ci] := v.tick];
      state := ExecuteNavigating;
      goals := ChoiceGoals(choice);
      chosen := found;
    }

    /**
     * `try_select_coop`: the setup phase in Setup; otherwise, in a
     * two-player game, one transition step followed by the handler of the
     * state reached.
     */
    method TrySelectCoop(v: CoopView, currentGoals: seq<Option<Goal>>) returns (goals: seq<Option<Goal>>)
      requires ViewOK(v)
      modifies this
      ensures old(state) == Setup ==> exists chosen ::
        SetupOutcome(v, currentGoals, old(state), old(lastPlateDoorUsage), goals, chosen, state, lastPlateDoorUsage)
      ensures old(state) != Setup && !v.twoPlayerMode ==> goals == NoGoals(2) && state == old(state)
      ensures old(state) != Setup && v.twoPlayerMode ==> ExecuteOutcome(v, NextState(v, old(state)), goals, state)
      ensures old(state) != Setup ==> |goals| == 2 && lastPlateDoorUsage == old(lastPlateDoorUsage)
      ensures old(state) != Setup && v.twoPlayerMode && FindCooperationPair(v.previousGoals).None? ==>
        state == Setup && goals == NoGoals(2)
    {
      if state == Setup {
        ghost var chosen;
        goals, chosen := SetupPhase(v, currentGoals);
        return;
      }
      if !v.twoPlayerMode {
        return NoGoals(2);
      }
      CheckStateTransition(v);
      match state {
        case ExecuteNavigating => goals := ExecuteNavigatingPhase(v);
        case ExecuteReleasing => goals := ExecuteReleasingPhase(v);
        case ExecuteWaiting => goals := ExecuteWaitingPhase(v);
        case Setup => goals := NoGoals(2);
      }
    }
  }

  /** An emergency goal of the waiter that the passage does not override. */
  predicate FightingEnemy(g: Option<Goal>)
  {
    g.Some? && (g.value.KillEnemy? || g.value.AvoidEnemy?)
  }

  /** Player `i`'s previous goal is a door passage and it stands at the passage's target. */
  predicate AtPassTarget(v: CoopView, i: nat)
    requires ViewOK(v) && v.twoPlayerMode && i < 2
  {
    && v.previousGoals[i].Some? && v.previousGoals[i].value.PassThroughDoor?
    && v.positions[i] == v.previousGoals[i].value.targetPos
  }

  /**
   * The strategy asks to be kept only while it is an emergency, and then
   * the previous goals hold a cooperation pair.
   */
  lemma PrioritizedIsEmergency(s: CooperativeDoorPassageStrategy, v: CoopView)
    requires |v.previousGoals| == 2
    ensures s.Prioritize(v) ==> s.IsEmergency() && FindCooperationPair(v.previousGoals).Some?
    ensures s.state == Setup ==> !s.Prioritize(v) && !s.IsEmergency()
  {
    ActiveIffPairFound(v.previousGoals);
  }
}
