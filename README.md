# swoq-bot decision core in Dafny

This project models the decision core of swoq-bot, a bot that plays a
grid-dungeon game alone or as a team of two. The bot sees a square of the map
around each player every tick. It remembers what it has seen and plans paths
with A*. It then chooses one goal per player: explore, fetch a key, open a
door, hold a pressure plate while the partner walks through its door, and so
on. I/O, the game protocol and the neural-network planner are not modelled.
The model covers the following parts:

- **Grid geometry** (`Types`): Manhattan distance, neighbours in North, East,
  South, West order, adjacency, and inclusive bounds.
- **Actions** (`Swoq`, `Infra`): turning the next path cell into a move, and
  an adjacent target into a use action.
- **Search:**
  - `InfraPathfinding.Search` is one A* loop with a 5000-expansion cap,
    shared by the grid A* (`FindPathWithCost`), the world-state A*
    (`Pathfinding.FindPath`) and the low-level search of Conflict-Based
    Search (`Cbs.FindPathWithConstraints`).
  - `Pathfinding.ComputeReachablePositions` is the breadth-first pass that
    collects the unexplored frontier.
  - `Cbs.FindPaths` is the constraint-tree search for several agents.
- **World bookkeeping:**
  - the item trackers (`ItemTrackers`) and the boulder tracker
    (`BoulderTrackers`);
  - the fog-of-war merge of each tick's surroundings, walkability, key
    possession, the frontier order and the level reset (`WorldStates`).
- **Path housekeeping** (`Goals`): trimming, validating and replacing a
  player's cached path and destination.
- **Goal-swap detection** (`PlannerStates`): a four-slot ring buffer of the
  two players' goal pairs.
- **Strategy arbitration:**
  - `StrategyPlanners` fills each goal slot on a first-come, first-served
    basis. A filled slot is never overwritten, and empty slots default to
    Explore.
  - The cooperative door-passage state machine (`CoopDoorPassages`).
  - The key-and-door assignment table (`KeyAndDoor`).
- **The action space of the learning planner** (`ActionSpaces`): 128 slots,
  a validity mask, and the count of valid slots.

The core's modules take the source's own form:

- Trackers, the world state, the planner state, the strategies with state,
  and the action space are classes with `modifies` frames. Their loops
  carry invariants.
- Pure helpers are functions with lemmas about them.
- A hash-map or hash-set iteration whose order the source leaves open is a
  `:|` choice loop, so every proved property holds for any iteration order.
- A binary heap is a multiset from which any least entry may be popped.

The source and its comments disagree in two places. In both, the model
follows the code:

- The comment in the strategy planner says emergency strategies can
  override other goals. `process_strategy` never overwrites a filled slot,
  and `StrategyPlanners.ProcessedKeepsFilled` proves that.
- The comment on `is_goal_swapping` describes the pattern the code checks:
  t against t-2 and t-1 against t-3. Two players who trade goals at every
  tick, a pattern of period two, are therefore not reported.
  `PlannerStates.PeriodTwoAlternationNotReported` states this.

In one place the model departs from the code on purpose. The CBS
constraint is built from the blamed agent's index, not from its id, as
"## Findings" explains. `Cbs.NewConstraintAsWritten` keeps the code as
written. The constraint tree search is built on the corrected
`Cbs.NewConstraint`, which agrees with the code whenever agent ids equal
their indices.

## Model

| member | source | states |
|---|---|---|
| Types.Neighbors | src/infra/types.rs:16-23 | four neighbours in North, East, South, West order, each at distance 1 |
| Types.AdjacentIffNeighbor | src/infra/types.rs:16-27 | adjacency holds exactly when the second position is among the first's neighbours |
| Types.AdjacentSymmetric | src/infra/types.rs:25-27 | adjacency is symmetric |
| Types.DistanceSymmetric | src/infra/types.rs:12-14 | the Manhattan distance is symmetric |
| Types.DistanceZeroIff | src/infra/types.rs:12-14 | the distance is zero exactly when the positions are equal |
| Types.DistanceTriangle | src/infra/types.rs:12-14 | the distance obeys the triangle inequality, so it is an admissible A* heuristic |
| Types.FromCenterAndRange | src/infra/types.rs:49-56 | the bounds span 2·range on each axis, centred on the centre |
| Types.FromCenterContains | src/infra/types.rs:49-60 | the square contains p exactly when both coordinate differences are at most range; containment is inclusive on every edge |
| Types.BoundsCornersContained | src/infra/types.rs:58-60 | a non-empty bounds contains its four corners |
| Swoq.TileAt | src/world_state.rs:259-272 | a map lookup gives None exactly for a cell never seen, and the stored tile otherwise |
| Infra.PathToAction | src/infra/mod.rs:29-46 | None for a path shorter than 2 or when path[1] is the current cell; otherwise a move one step closer to path[1], vertical first |
| Infra.PathToActionFollowsPath | src/infra/mod.rs:29-46 | when path[1] is adjacent, the move lands exactly on path[1] |
| Infra.UseDirection | src/infra/mod.rs:48-58 | always a use action, aimed one step closer to the target; West when the target is the player's own cell |
| Infra.UseDirectionHitsTarget | src/infra/mod.rs:48-58 | for an adjacent target the use action acts on that target |
| InfraPathfinding.MinimalExists | src/infra/pathfinding.rs:61-72 | a non-empty open set has an entry of least f-score, so a heap pop is always possible |
| InfraPathfinding.ReconstructPath | src/infra/pathfinding.rs:123-134 | the path ends at the target, follows the came-from links back to a cell without one, and the tick grows by one per step |
| InfraPathfinding.ReconstructedIsSearchPath | src/infra/pathfinding.rs:123-134 | a reconstructed path to the goal runs from start to goal in admitted unit steps inside the map |
| InfraPathfinding.PopEntry | src/infra/pathfinding.rs:69-79 | an already closed entry is dropped; otherwise its cell is closed and counted, and the search gives up exactly when the count passes 5000; the search invariant is kept and the loop measure decreases |
| InfraPathfinding.Search | src/infra/pathfinding.rs:31-116 | Some([goal]) when start == goal; a returned path is a search path found within 5000 expansions; at most 5001 expansions are counted |
| InfraPathfinding.FindPathWithCost | src/infra/pathfinding.rs:31-116 | a returned path starts at start and ends at goal; its steps are adjacent, inside the map, and accepted by the walkability test at the step's tick |
| Pathfinding.FindPath | src/pathfinding.rs:27-100 | the same 5000-expansion cap; a found path runs from start to goal on in-map cells that pass `is_walkable_with_goal` |
| Pathfinding.OptimisticallyWalkable | src/pathfinding.rs:137-154 | unseen cells are walkable; Wall, Boulder and Enemy are not; a door is walkable exactly when its key is held |
| Pathfinding.ComputeReachablePositions | src/pathfinding.rs:107-183 | each cell is enqueued once; each enqueued cell is an in-map walkable neighbour of an earlier one; every walkable in-map neighbour is enqueued; the frontier is exactly the unexplored cells first reached from an explored cell |
| Cbs.SumLengthsUpdate | src/infra/cbs.rs:618-619 | replacing one path changes the sum of lengths by the difference of the two lengths |
| Cbs.NewCTNode | src/infra/cbs.rs:66-72 | a fresh node has no constraints, one slot per agent, and a cost equal to the sum of its path lengths |
| Cbs.GetPositionAtTime | src/infra/cbs.rs:476-482 | path[t] while t < len, otherwise the last cell |
| Cbs.StaysAtGoal | src/infra/cbs.rs:476-482 | after its path ends an agent stays at its last cell |
| Cbs.ViolatesConstraints | src/infra/cbs.rs:254-269 | holds exactly when a vertex constraint matches (to, time) or an edge constraint matches (from, to, time) |
| Cbs.AgentConstraints | src/infra/cbs.rs:156-160 | exactly the constraints of the given agent id |
| Cbs.FindPathWithConstraints | src/infra/cbs.rs:141-251 | a found path is the agent's path from start to goal inside the map, found within the expansion cap, and it respects every constraint given |
| Cbs.FindFirstConflict | src/infra/cbs.rs:396-473 | None exactly when no two agents clash at any time before the longest path ends; a returned conflict is real and nothing earlier in scan order clashes |
| Cbs.SwapIsCaughtEarlier | src/infra/cbs.rs:403-467 | two agents swapping cells clash by the sequential rule, unless both sit on a shared goal |
| Cbs.ClashFreeForever | src/infra/cbs.rs:403-431 | clash-free up to the longest path means clash-free at every time |
| Cbs.NoSwapWhenClashFree | src/infra/cbs.rs:450-467 | in a clash-free solution no pair of agents swaps cells between t-1 and t |
| Cbs.NewConstraintAsWritten | src/infra/cbs.rs:530-573 | the constraint built with the agent id compared against conflict indices, as the code is written |
| Cbs.NewConstraint | src/infra/cbs.rs:530-573 | the constraint for the agent at the given index; it agrees with the as-written one whenever id and index coincide |
| Cbs.ConstraintRulesOutConflict | src/infra/cbs.rs:530-573 | the new constraint forbids exactly the step for which the blamed agent was charged |
| Cbs.AsWrittenMissesSequentialConflict | src/infra/cbs.rs:521-553 | with ids that differ from indices, the as-written constraint fails to rule out the conflict's step |
| Cbs.AddConstraint | src/infra/cbs.rs:530-573 | appends exactly one constraint, the corrected one chosen by the agent's index, and leaves the solution and cost alone |
| Cbs.ReplanAndUpdate | src/infra/cbs.rs:576-622 | only the agent's path changes; the cost keeps equal to the sum of path lengths; the new path respects the agent's constraints |
| Cbs.CreateChildWithConstraint | src/infra/cbs.rs:511-527 | a child has one more constraint than its parent, the corrected one chosen by the agent's index, and a replanned path for that agent which respects its constraints |
| Cbs.CreateChildNodes | src/infra/cbs.rs:485-508 | at most two children, each a valid node with one more constraint, built with the corrected constraint |
| Cbs.CheapestExists | src/infra/cbs.rs:333-337 | a non-empty open list has a cheapest node |
| Cbs.InitialNode | src/infra/cbs.rs:294-330 | the root is a valid node without constraints; with no agents it is the empty node |
| Cbs.FindPaths | src/infra/cbs.rs:294-393 | Some([]) for no agents; a returned solution is found within 1000 constraint-tree nodes, gives each agent a valid path, and no two agents clash at any time; the children are built with the corrected constraint |
| ItemTrackers.DedupSpec | src/infra/item_tracker.rs:35-42 | the result has no duplicates, holds exactly the input's positions, and is no longer than the input |
| ItemTrackers.DedupIdempotent | src/infra/item_tracker.rs:35-42 | a list without duplicates is left unchanged |
| ItemTrackers.DedupPositions | src/infra/item_tracker.rs:35-42 | the dedup loop computes the first-occurrence deduplication |
| ItemTrackers.RetainSpec | src/infra/item_tracker.rs:46-61 | retain keeps exactly the positions the predicate accepts, and keeps a list free of duplicates |
| ItemTrackers.UpdatedSpec | src/infra/item_tracker.rs:23-62 | after an update the list has no duplicates and holds exactly the old or seen positions that are unseen now or still show a valid tile |
| ItemTrackers.UpdatedRetainsUnseen | src/infra/item_tracker.rs:46-61 | a position outside every visibility bound, or never seen, is retained |
| ItemTrackers.UpdatedRemovesInvalid | src/infra/item_tracker.rs:51-53 | a visible position whose tile fails the validator is removed |
| ItemTrackers.UpdatedStable | src/infra/item_tracker.rs:23-62 | with nothing seen and every tracked item confirmed, an update changes nothing |
| ItemTrackers.FirstClosestIndex | src/infra/item_tracker.rs:68-73 | the index of a closest position; every earlier position is strictly farther |
| ItemTrackers.ClosestIn | src/infra/item_tracker.rs:68-73 | None exactly for an empty list; otherwise a tracked position of least distance |
| ItemTrackers.ItemTracker.Update | src/infra/item_tracker.rs:23-62 | the new list is the update of the old list with the sightings |
| ItemTrackers.ItemTracker.ClosestTo | src/infra/item_tracker.rs:68-73 | None exactly when the tracker is empty; otherwise a tracked position no farther from the reference than any other tracked position |
| ItemTrackers.ItemTracker.Clear | src/world_state.rs:184-190 | the tracker is empty |
| ItemTrackers.ColoredItemTracker.Update | src/infra/item_tracker.rs:102-117 | every colour, old or newly seen, is updated independently with its own sightings |
| ItemTrackers.ColoredItemTracker.UpdateWithPositions | src/infra/item_tracker.rs:123-171 | the same with a validator that also sees the position and colour |
| ItemTrackers.ColoredItemTracker.MergeSightings | src/infra/item_tracker.rs:133-141 | each colour's list is extended with its sightings |
| ItemTrackers.ColoredItemTracker.PruneAll | src/infra/item_tracker.rs:143-170 | each colour's list is deduplicated and pruned on its own |
| ItemTrackers.ColoredItemTracker.GetPositions | src/infra/item_tracker.rs:173-175 | Some exactly for a tracked colour |
| ItemTrackers.ColoredItemTracker.ClosestTo | src/infra/item_tracker.rs:183-190 | a tracked position of that colour at least distance |
| ItemTrackers.ColoredItemTracker.Clear | src/world_state.rs:184-190 | the tracker is empty |
| ItemTrackers.HasColorIffClosest | src/infra/item_tracker.rs:177-190 | has_color holds exactly when the colour's list is non-empty, which is when closest_to finds something |
| BoulderTrackers.BoulderTracker.AddBoulder | src/infra/boulder_tracker.rs:32-34 | the boulder is tracked afterwards with the given moved flag |
| BoulderTrackers.BoulderTracker.RemoveBoulder | src/infra/boulder_tracker.rs:36-38 | the boulder is no longer tracked, and the removed entry is returned |
| BoulderTrackers.BoulderTracker.GetOriginalBoulders | src/infra/boulder_tracker.rs:44-50 | exactly the tracked boulders that have not moved |
| BoulderTrackers.BoulderTracker.HasMoved | src/infra/boulder_tracker.rs:56-58 | false for an untracked position |
| BoulderTrackers.BoulderTracker.IsEmpty | src/infra/boulder_tracker.rs:64-66 | empty exactly when nothing is tracked |
| BoulderTrackers.BoulderTracker.Clear | src/world_state.rs:187 | no boulder is tracked |
| BoulderTrackers.BoulderTracker.Update | src/infra/boulder_tracker.rs:70-102 | a new sighting is added with moved = adjacent to the player; existing flags are kept; a tracked boulder whose known tile is not Boulder is removed; boulders on unseen cells stay |
| Goals.ShouldUpdatePath | src/goals/mod.rs:70-85 | holds exactly when there is no old path or the new one is strictly shorter |
| Goals.ShouldUpdateAntisymmetric | src/goals/mod.rs:70-85 | a path never replaces itself, and two paths never both replace each other |
| Goals.ClearPathOnGoalChange | src/goals/mod.rs:88-95 | destination and path are cleared exactly when the previous goal differs from the current one |
| Goals.ValidateDestination | src/goals/mod.rs:98-112 | both are cleared when the destination's tile is known and is neither Empty nor Unknown; otherwise nothing changes |
| Goals.SkipUntil | src/goals/mod.rs:121-126 | the suffix of the path starting at the first occurrence of the target; empty when the target is absent |
| Goals.ValidateAndTrimPath | src/goals/mod.rs:115-142 | the path becomes its suffix from the player's position, or None when that suffix is invalid; the destination is kept |
| Goals.TryUpdatePathToDestination | src/goals/mod.rs:146-161 | reports whether a path to the destination exists; the cached path is replaced only by a strictly shorter one |
| Goals.TryKeepDestination | src/goals/mod.rs:163-175 | keeps the destination with a fresh path when a path exists; otherwise clears the destination and returns false |
| WorldStates.ShouldUpdate | src/world_state.rs:259-272 | a concrete observation always overwrites; Unknown overwrites only nothing, Unknown or the player's old cell |
| WorldStates.FogRetain | src/world_state.rs:223-231 | Unknown tiles outside the current bounds are dropped; every other tile is kept as it was |
| WorldStates.FogRetainKeepsKnown | src/world_state.rs:223-231 | a known tile other than Unknown survives the fog step |
| WorldStates.IndexRoundTrip | src/world_state.rs:242-249 | surroundings index to cell and back is the identity |
| WorldStates.PosRoundTrip | src/world_state.rs:242-249 | cell to index and back is the identity, so distinct indices name distinct cells |
| WorldStates.SurroundingsInBounds | src/world_state.rs:211-249 | every cell of the surroundings square lies inside the visibility bounds |
| WorldStates.ScanTiles | src/world_state.rs:242-281 | the scanned map is the old map overridden cell by cell, whatever the scan order |
| WorldStates.ScanSkipsOffMap | src/world_state.rs:251-254 | cells off the map are never written |
| WorldStates.ScanWritesObservation | src/world_state.rs:256-281 | a concrete observation lands on the cell its index names |
| WorldStates.ScanKeepsKnown | src/world_state.rs:259-272 | a known tile is never turned into Unknown unless it was Unknown or the player |
| WorldStates.ScanSeenPlain | src/world_state.rs:284-331 | the enemy, boulder, sword and health sightings are exactly the in-map cells observed as such, in scan order |
| WorldStates.ScanSeenColored | src/world_state.rs:284-331 | the key, door and plate sightings per colour are exactly the cells observed with that colour |
| WorldStates.PlatesWithBouldersSpec | src/world_state.rs:483-502 | a plate is listed exactly when a tracked boulder sits on it |
| WorldStates.Walkable | src/world_state.rs:425-453 | unseen cells are walkable; Wall, Boulder, Enemy and Boss are not; a door is walkable exactly when doors may be opened and its key is held; a key only when keys are not avoided and the hands are empty |
| WorldStates.WalkableWithGoal | src/world_state.rs:455-480 | the same, except that a key tile is walkable exactly when it is the goal |
| WorldStates.WalkableAgreeOffKeys | src/world_state.rs:425-480 | the two walkability tests agree on every cell that is not a key |
| WorldStates.InsertSorted | src/world_state.rs:523-527 | inserting by distance keeps a list sorted |
| WorldStates.SortByDistance | src/world_state.rs:523-527 | the result is a permutation of the input, sorted by non-decreasing distance |
| WorldStates.WorldState.ResetForNewLevel | src/world_state.rs:180-207 | the map, trackers, frontier, inventory, second-player data and planning fields are cleared; level, tick and player position are kept |
| WorldStates.WorldState.CheckDroppedBoulder | src/world_state.rs:394-423 | a boulder newly seen next to the player is tracked, flagged as moved when the old tile says so; otherwise nothing changes |
| WorldStates.WorldState.IntegrateSurroundings | src/world_state.rs:210-379 | the fog step and the scan produce the new map; every tracker is then updated with its own sightings, the new map and the visibility square |
| WorldStates.WorldState.GetBouldersOnPlates | src/world_state.rs:483-502 | per colour, exactly the plates a tracked boulder holds down; colours without any are absent |
| WorldStates.WorldState.HasKey | src/world_state.rs:504-520 | holds exactly when the inventory has the key, or a tracked boulder sits on a plate of that colour |
| WorldStates.WorldState.SortedUnexplored | src/world_state.rs:523-527 | a permutation of the frontier, sorted by non-decreasing distance to the player |
| PlannerStates.Chronological | src/planners/heuristic/planner_state.rs:101-107 | the four slots read oldest first, starting at the slot to be overwritten next |
| PlannerStates.RecordShifts | src/planners/heuristic/planner_state.rs:61-64 | recording a pair drops the oldest one and appends the new one |
| PlannerStates.FourRecordsFillHistory | src/planners/heuristic/planner_state.rs:61-64 | four recordings in a row make the history exactly those four pairs |
| PlannerStates.SwapPatternCharacterized | src/planners/heuristic/planner_state.rs:91-99 | swapping holds exactly when t is t-2 exchanged, t-1 is t-3 exchanged, and the newest pair holds two distinct goals |
| PlannerStates.PeriodTwoAlternationNotReported | src/planners/heuristic/planner_state.rs:91-95 | players trading two goals at every recording are not reported |
| PlannerStates.HeldThenExchangedReported | src/planners/heuristic/planner_state.rs:91-99 | a pair held twice and then exchanged twice is reported |
| PlannerStates.NoSwapWithoutTwoGoals | src/planners/heuristic/planner_state.rs:97-99 | no swap is reported when the newest pair has a missing goal or two equal goals |
| PlannerStates.PlannerState.constructor | src/planners/heuristic/planner_state.rs:44-52 | fresh records for every player, an empty history, and index 0 |
| PlannerStates.PlannerState.SyncPlayerCount | src/planners/heuristic/planner_state.rs:54-58 | the records grow to the player count with fresh entries and never shrink |
| PlannerStates.PlannerState.RecordGoalPair | src/planners/heuristic/planner_state.rs:61-64 | the slot at the index is written, the index advances mod 4 and stays in 0..4, and the history shifts by one |
| PlannerStates.PlannerState.IsGoalSwapping | src/planners/heuristic/planner_state.rs:71-108 | the index chain wraps from 0 to 3; the history is oldest first; the flag holds exactly when the swap pattern holds |
| StrategyPlanners.SeedOf | src/strategies/planner.rs:112 | the tick converted to usize, with a negative tick wrapping modulo 2^64 |
| StrategyPlanners.AllPlayersHaveNoGoals | src/strategies/planner.rs:240-242 | holds exactly when every entry is None |
| StrategyPlanners.AnyPlayerNeedsGoal | src/strategies/planner.rs:245-247 | holds exactly when some entry is None |
| StrategyPlanners.FarEmptyPositions | src/strategies/planner.rs:93-105 | exactly the Empty cells farther than 5 from the player |
| StrategyPlanners.FirstReachableSpec | src/strategies/planner.rs:114-129 | None exactly when no attempt is reachable; otherwise the earliest reachable attempt |
| StrategyPlanners.TryAttempts | src/strategies/planner.rs:112-129 | the attempt loop, with the seed wrapping at 2^64, computes the first reachable of 10 attempts |
| StrategyPlanners.FindRandomReachablePosition | src/strategies/planner.rs:86-130 | a result is a reachable Empty cell farther than 5, at some attempt index (seed + k) mod len with k < 10; None exactly when there are no candidates or all 10 attempts fail |
| StrategyPlanners.Offers | src/strategies/planner.rs:259-304 | one offer per slot; a Coop strategy offers nothing once every slot is filled |
| StrategyPlanners.ProcessedKeepsFilled | src/strategies/planner.rs:262-284 | a slot filled before a strategy runs keeps its goal and its strategy index |
| StrategyPlanners.ProcessedPreservesSlots | src/strategies/planner.rs:250-306 | running one more strategy keeps the slot invariant: forced goals untouched, every attributed slot filled by that strategy's offer |
| StrategyPlanners.StrategyPlanner.ProcessStrategy | src/strategies/planner.rs:250-306 | only empty slots are filled, each from the strategy's offer and tagged with the strategy's index |
| StrategyPlanners.StrategyPlanner.ForceRandomExploration | src/strategies/planner.rs:144-156 | the forced slot of each player with ticks left holds its random target |
| StrategyPlanners.EmergencyIndicesSpec | src/strategies/planner.rs:160-162 | the emergency indices are exactly the emergency strategies, each once, in list order |
| StrategyPlanners.FoldLeavesEmpty | src/strategies/planner.rs:262-284 | a slot still empty after a run of strategies was empty before, and no Individual strategy of the run had a goal for it |
| StrategyPlanners.FoldKeepsFilled | src/strategies/planner.rs:262-284 | a slot filled before a run of strategies keeps its goal and its strategy through the run |
| StrategyPlanners.StrategyPlanner.ProcessEmergencies | src/strategies/planner.rs:160-173 | the slots afterwards are exactly those left by running every emergency strategy once, in list order; the slot invariant is kept |
| StrategyPlanners.StrategyPlanner.ProcessPrioritized | src/strategies/planner.rs:176-203 | the slots afterwards are exactly those left by running, in some order, each distinct strategy that filled a slot last tick, exists and asks to be prioritized, once; the slot invariant is kept |
| StrategyPlanners.StrategyPlanner.ProcessInOrder | src/strategies/planner.rs:206-221 | the slots afterwards are exactly those left by running strategies 0 to processed - 1 in order; no shorter prefix fills every slot; stopping before the end means every slot is filled |
| StrategyPlanners.StrategyPlanner.SelectGoal | src/strategies/planner.rs:133-238 | one goal per player; forced goals are kept; the slots are those left by the emergency, prioritized and in-order passes run one after the other on the forced slots, with the prioritized pass reading the previous record or an empty one after a change in player count; unset slots become Explore; the new record names the strategy that filled each slot |
| CoopDoorPassages.NoGoals | src/planners/heuristic/strategies/cooperative_door_passage.rs:413 | n empty slots |
| CoopDoorPassages.FindCooperationPair | src/planners/heuristic/strategies/cooperative_door_passage.rs:110-134 | two distinct indices from {0, 1} whose goals wait on a plate and pass through a door of the same colour; None exactly when neither order cooperates |
| CoopDoorPassages.ActiveIffPairFound | src/planners/heuristic/strategies/cooperative_door_passage.rs:41-62 | an active cooperation is exactly one the pair search finds |
| CoopDoorPassages.CalculateTargetBeyondDoor | src/planners/heuristic/strategies/cooperative_door_passage.rs:376-391 | None exactly for an empty path; otherwise the door mirrored away from the path's last cell |
| CoopDoorPassages.TargetIsBeyondDoor | src/planners/heuristic/strategies/cooperative_door_passage.rs:376-391 | when the last cell is next to the door, the target is next to the door and two steps from that cell |
| CoopDoorPassages.FirstPathToNeighbor | src/planners/heuristic/strategies/cooperative_door_passage.rs:332-358 | the path to the first door neighbour that is Empty or the player's cell and has a path; None exactly when there is none |
| CoopDoorPassages.PlayerCanReachPlateAndDoor | src/planners/heuristic/strategies/cooperative_door_passage.rs:301-373 | plate reachability and distance, i32::MAX when unreachable; door reachability through the first usable neighbour |
| CoopDoorPassages.SelectionSound | src/planners/heuristic/strategies/cooperative_door_passage.rs:548-571 | the player closer to the plate waits, player 0 on ties; the other passes to the target beyond the door, which it cannot reach already |
| CoopDoorPassages.ChoiceGoals | src/planners/heuristic/strategies/cooperative_door_passage.rs:590-593 | the waiter gets WaitOnTile and the passer PassThroughDoor, with the same colour |
| CoopDoorPassages.UsedBeforeTransitive | src/planners/heuristic/strategies/cooperative_door_passage.rs:438-444 | the usage order is transitive |
| CoopDoorPassages.UsedBeforeTotal | src/planners/heuristic/strategies/cooperative_door_passage.rs:438-444 | the usage order is total |
| CoopDoorPassages.InsertByUsage | src/planners/heuristic/strategies/cooperative_door_passage.rs:438-444 | inserting keeps the colours sorted by usage and adds exactly one colour |
| CoopDoorPassages.SortColorsByUsage | src/planners/heuristic/strategies/cooperative_door_passage.rs:438-444 | a sorted rearrangement of the colours |
| CoopDoorPassages.ColorsByUsage | src/planners/heuristic/strategies/cooperative_door_passage.rs:438-444 | all three colours once each, least recently used first, never-used counting as i32::MIN, ties kept in Red, Green, Blue order |
| CoopDoorPassages.TryColor | src/planners/heuristic/strategies/cooperative_door_passage.rs:451-603 | None exactly when the colour is ineligible or no plate and door pair gives a selection; otherwise the first such selection |
| CoopDoorPassages.FirstSelection | src/planners/heuristic/strategies/cooperative_door_passage.rs:505-603 | the first plate, then door, in list order with a selection; None exactly when there is none |
| CoopDoorPassages.FirstDoor | src/planners/heuristic/strategies/cooperative_door_passage.rs:510-603 | the first door with a selection for the plate; None exactly when there is none |
| CoopDoorPassages.FirstColorSelection | src/planners/heuristic/strategies/cooperative_door_passage.rs:451-603 | the first colour in the given order with a plate and door selection, and that selection; None exactly when no colour has one |
| CoopDoorPassages.CooperativeDoorPassageStrategy.CheckStateTransition | src/planners/heuristic/strategies/cooperative_door_passage.rs:65-107 | Navigating moves to Releasing exactly when the passer is at its target; Releasing moves to Waiting exactly when the waiter has left the plate; Waiting moves to Setup exactly when no pair remains; Setup stays; nothing changes outside a two-player game |
| CoopDoorPassages.CooperativeDoorPassageStrategy.ExecuteNavigatingPhase | src/planners/heuristic/strategies/cooperative_door_passage.rs:137-193 | the passer keeps passing and the waiter keeps waiting unless it is fighting; without a pair, back to Setup with no goals |
| CoopDoorPassages.CooperativeDoorPassageStrategy.ExecuteReleasingPhase | src/planners/heuristic/strategies/cooperative_door_passage.rs:196-239 | while the waiter is still on the plate, only the passer gets a goal; without a pair, back to Setup with no goals |
| CoopDoorPassages.CooperativeDoorPassageStrategy.ExecuteWaitingPhase | src/planners/heuristic/strategies/cooperative_door_passage.rs:242-298 | the player at its pass target keeps its goal; otherwise back to Setup with no goals |
| CoopDoorPassages.CooperativeDoorPassageStrategy.SetupPhase | src/planners/heuristic/strategies/cooperative_door_passage.rs:401-608 | no goals unless two-player, no goals set, no frontier and no boulder off a plate; otherwise the first selection in least-recently-used colour order, which sets ExecuteNavigating and stamps the colour's usage with the tick |
| CoopDoorPassages.NextStateOneStep | src/planners/heuristic/strategies/cooperative_door_passage.rs:65-107 | a transition stays or moves one place along Navigating, Releasing, Waiting, Setup; it leaves Setup alone and reaches Setup only from Waiting once no pair remains |
| CoopDoorPassages.CooperativeDoorPassageStrategy.TrySelectCoop | src/planners/heuristic/strategies/cooperative_door_passage.rs:638-680 | in Setup, the setup phase's whole outcome for some choice; in an execute state outside a two-player game, no goals and no change; in a two-player game, the outcome of the handler of the state reached by one transition; usage is kept outside Setup |
| CoopDoorPassages.PrioritizedIsEmergency | src/planners/heuristic/strategies/cooperative_door_passage.rs:616-631 | prioritize implies is_emergency and an active pair; in Setup neither holds |
| KeyAndDoor.AssignedPlayers | src/planners/heuristic/strategies/key_and_door.rs:124-128 | exactly the players some assignment names |
| KeyAndDoor.DoorsWithPlates | src/planners/heuristic/strategies/key_and_door.rs:103-121 | in a two-player game, exactly the colours some player has a path to a plate of; empty otherwise |
| KeyAndDoor.BestIsUnique | src/planners/heuristic/strategies/key_and_door.rs:252-258 | at most one player meets the best-player characterisation |
| KeyAndDoor.FindPlayerWithKey | src/planners/heuristic/strategies/key_and_door.rs:136-150 | the first free player holding the key; None exactly when there is none |
| KeyAndDoor.FindBestPlayer | src/planners/heuristic/strategies/key_and_door.rs:174-267 | a free player with a reachable key at least distance, every earlier candidate strictly farther; None exactly when no free player can reach a key |
| KeyAndDoor.GoalFor | src/planners/heuristic/strategies/key_and_door.rs:296-371 | GetKey only while fetching with the key reachable; OpenDoor only while the key is still held and a door neighbour is reachable |
| KeyAndDoor.AssignColor | src/planners/heuristic/strategies/key_and_door.rs:132-286 | a free key holder is assigned OpenDoor; otherwise, when the key's location is known, the best player is assigned FetchKey; otherwise nothing |
| KeyAndDoor.KeyAndDoorStrategy.CleanAssignments | src/planners/heuristic/strategies/key_and_door.rs:35-64 | an assignment is kept exactly when its door is tracked and closed and its player exists and is active |
| KeyAndDoor.KeyAndDoorStrategy.UpdatePhases | src/planners/heuristic/strategies/key_and_door.rs:67-82 | same colours and players; FetchKey becomes OpenDoor exactly when the key is held; OpenDoor never moves back |
| KeyAndDoor.KeyAndDoorStrategy.AssignNewColors | src/planners/heuristic/strategies/key_and_door.rs:85-290 | old assignments are kept; only unassigned, unopened door colours are added, each as AssignColor describes; any unassigned colour left has no key holder and no reachable known key |
| KeyAndDoor.KeyAndDoorStrategy.GenerateGoals | src/planners/heuristic/strategies/key_and_door.rs:293-379 | one entry per player; a goal comes from one of that player's assignments; None only when none of them yields a goal |
| KeyAndDoor.KeyAndDoorStrategy.TrySelectCoop | src/planners/heuristic/strategies/key_and_door.rs:392-421 | the table goes through clean, advance and assign as those three methods state; one entry per player; None for players who already have a goal; any goal comes from one of that player's assignments; a free player gets None only when none of its assignments yields a goal |
| ActionSpaces.ActionFeatureSize | src/planners/rl/action_space.rs:201-203 | 16 kinds plus 3 target features, that is 19 |
| ActionSpaces.CountTruePositive | src/planners/rl/action_space.rs:105-108 | the count of set bits is positive exactly when some bit is set |
| ActionSpaces.CountTrueClear | src/planners/rl/action_space.rs:121-123 | clearing a set bit lowers the count by one |
| ActionSpaces.CountTruePrefix | src/planners/rl/action_space.rs:67-73 | a mask set on exactly its first n bits counts n |
| ActionSpaces.ActionSpace.Generate | src/planners/rl/action_space.rs:40-85 | 128 slots; the first min(len, 128) actions are packed in order and marked valid, surplus actions are dropped; mask[i] holds exactly when i < num_valid |
| ActionSpaces.ActionSpace.MaskAsFloats | src/planners/rl/action_space.rs:93-98 | one number per slot: 1 where valid, 0 where masked |
| ActionSpaces.ActionSpace.HasActions | src/planners/rl/action_space.rs:105-108 | holds exactly when some slot is valid |
| ActionSpaces.ActionSpace.GetAction | src/planners/rl/action_space.rs:111-117 | None for an index of 128 or more or a masked slot; otherwise the slot's action |
| ActionSpaces.ActionSpace.TakeAction | src/planners/rl/action_space.rs:120-128 | takes a valid slot's action, clears its bit and decrements the count, which never saturates; any other index changes nothing, so a second take yields None |

## Left out

- Networking, the game protocol and its generated enumerations: tiles arrive
  already decoded, and an undecodable code is None. The `update` of the
  world state copies protocol fields, so it is not modelled.
- Integer widths: coordinates, ticks and distances are unbounded integers.
  No i32 overflow can happen on a level grid. The usize wrap of the
  random-target seed is modelled.
- HashMap, HashSet and BinaryHeap orders: where the source's result depends
  on iteration order, the model leaves that order open.
  - The ring order of the A* heap among equal f-scores is open.
  - So is the CBS tie between nodes of equal cost.
  - So is the collection order of the random-target candidates, given as a
    sequence parameter.
- Calls into code that is not part of this model become parameters or view
  fields:
  - `find_path` and the custom-walkability search;
  - the strategies' `try_select` answers;
  - `has_door_been_opened`, `is_active`, `closest_key`,
    `knows_key_location`, `any_player_has_frontier` and
    `has_boulders_not_on_plates`;
  - the world's players.

  planners/heuristic/planner_state.rs and the heuristic world state it
  wraps are not part of this model beyond the swap detector and the player
  records.
- The source's calls to `is_walkable_with_goal` in pathfinding.rs pass two
  arguments to a three-argument function. `Pathfinding.FindPath` passes its
  own `canOpenDoors`.
- StrategyPlanners.StrategyPlanner.SelectGoal: the concrete strategy list
  built by `StrategyPlanner::new` is not modelled. Each strategy is given by
  its kind, its two flags and its answers for the tick. The answers are
  taken to be the same whenever a strategy is asked again in the same tick.
- CoopDoorPassages.CooperativeDoorPassageStrategy.ExecuteWaitingPhase: the
  check for the other player on the plate only writes to the log, so it is
  left out.
- Cbs.AddConstraint: builds the corrected constraint, chosen by the agent's
  index, not the one the code builds from the agent's id. So do
  `Cbs.CreateChildWithConstraint`, `Cbs.CreateChildNodes` and `Cbs.FindPaths`.
  The two agree whenever ids equal indices. `Cbs.NewConstraintAsWritten`
  models the code as written (see "## Findings").
- KeyAndDoor.KeyAndDoorStrategy.GenerateGoals: when one player holds two
  colours, the map's iteration order decides which goal is kept. The model
  states only that the goal comes from one of that player's assignments.
- `clone_action` returns the same value as `get_action` in a value model,
  so `ActionSpaces.ActionSpace.GetAction` covers both.
- Left out of action_space.rs:
  - `encode_action` and `encode_action_space`, because they are floating
    point;
  - `iter_valid` and `action_type_counts`, which only log;
  - `MultiAgentActionSpace`, which only maps the per-player space over the
    players.
- The player record's ring buffer and swap detector have no callers in the
  source, so nothing connects them to goal selection.
- src/strategies/cooperative_door_passage.rs and src/strategies/key_and_door.rs
  are a second version of these two strategies. They are not part of this
  model, which follows the versions under src/planners/heuristic/strategies.

## Findings

| source | as written | input that shows it | evidently intended | confidence | as-written member | corrected member |
|---|---|---|---|---|---|---|
| src/infra/cbs.rs:521-553 | `create_child_with_constraint` passes `agent.id` to `add_constraint`, which compares it with `conflict.agent1`, an index into the agent list | agents with ids 5 and 1 at indices 0 and 1, paths (0,0)→(1,0)→(2,0) and (1,0)→(2,0)→(3,0), sequential conflict at (1,0), t = 1: agent 0's child gets the t-1 vertex constraint, which does not forbid its step | the constraint should be chosen by the agent's index, so agent1 is barred from the conflict cell at time t | not executed | Cbs.AsWrittenMissesSequentialConflict | Cbs.NewConstraint |
