/**
 * The key-and-door strategy of the rule-based planner
 * (planners/heuristic/strategies/key_and_door.rs): each door colour still
 * closed is assigned to at most one player, who first fetches the key
 * (FetchKey) and then opens the door (OpenDoor). Every tick the table of
 * assignments is cleaned, phases are advanced, free colours are
 * assigned, and goals are read off the table.
 */
module KeyAndDoor {
  import opened Wrappers
  import opened Types
  import opened Swoq
  import opened Goals

  datatype KeyDoorPhase = FetchKey | OpenDoor

  datatype ColorAssignment = ColorAssignment(playerIndex: nat, phase: KeyDoorPhase)

  /**
   * What the strategy reads of the world. Queries that are not part of
   * this model are given as values: `doorOpened`, `hasKey(player, colour)`,
   * `knowsKeyLocation`, `closestKey(player, colour)`, the path search
   * `findPath(from, to)`, and `findPathThroughDoor(from, to, colour)`,
   * the search that treats the doors of that colour as open.
   */
  datatype KeyDoorView = KeyDoorView(
    positions: seq<Position>,
    active: seq<bool>,
    tiles: map<Position, Tile>,
    doors: map<Color, seq<Position>>,
    plates: map<Color, seq<Position>>,
    twoPlayerMode: bool,
    doorOpened: Color -> bool,
    hasKey: (nat, Color) -> bool,
    knowsKeyLocation: Color -> bool,
    closestKey: (nat, Color) -> Option<Position>,
    findPath: (Position, Position) -> Option<seq<Position>>,
    findPathThroughDoor: (Position, Position, Color) -> Option<seq<Position>>)

  predicate ViewOK(v: KeyDoorView)
  {
    |v.active| == |v.positions|
  }

  /** `doors.has_color`: some door of this colour is tracked. */
  predicate HasDoorColor(v: KeyDoorView, c: Color)
  {
    c in v.doors && |v.doors[c]| > 0
  }

  /**
   * An assignment survives cleaning while its door is still tracked and
   * closed and its player exists and is active.
   */
  predicate Keeps(v: KeyDoorView, c: Color, a: ColorAssignment)
    requires ViewOK(v)
  {
    HasDoorColor(v, c) && !v.doorOpened(c) && a.playerIndex < |v.positions| && v.active[a.playerIndex]
  }

  /** Every assignment names an existing player. */
  predicate InRange(v: KeyDoorView, table: map<Color, ColorAssignment>)
  {
    forall c :: c in table ==> table[c].playerIndex < |v.positions|
  }

  /** The players the table already assigns, computed once per call. */
  function AssignedPlayers(table: map<Color, ColorAssignment>): (r: set<nat>)
    ensures forall i :: i in r <==> exists c :: c in table && table[c].playerIndex == i
  {
    set c | c in table :: table[c].playerIndex
  }

  /** Player `i` is free: active and not yet assigned. */
  predicate Free(v: KeyDoorView, taken: set<nat>, i: nat)
    requires ViewOK(v) && i < |v.positions|
  {
    v.active[i] && i !in taken
  }

  /** A free player already holding the key. */
  predicate KeyHolder(v: KeyDoorView, taken: set<nat>, c: Color, i: nat)
    requires ViewOK(v) && i < |v.positions|
  {
    Free(v, taken, i) && v.hasKey(i, c)
  }

  /**
   * In a two-player game, the colours some player can reach a plate of;
   * for these the key search may walk through the colour's doors.
   */
  function DoorsWithPlates(v: KeyDoorView): (r: set<Color>)
    ensures forall c :: c in r <==>
      v.twoPlayerMode && c in v.plates &&
      exists i, k :: 0 <= i < |v.positions| && 0 <= k < |v.plates[c]| && v.findPath(v.positions[i], v.plates[c][k]).Some?
  {
    if !v.twoPlayerMode then {}
    else (set c: Color | c in v.plates &&
            exists i, k :: 0 <= i < |v.positions| && 0 <= k < |v.plates[c]| && v.findPath(v.positions[i], v.plates[c][k]).Some?)
  }

  /** Player `i` can reach its closest key of colour `c`, through the colour's doors when `throughDoors`. */
  predicate CanReachKey(v: KeyDoorView, i: nat, c: Color, throughDoors: bool)
    requires i < |v.positions|
  {
    && v.closestKey(i, c).Some?
    && if throughDoors then v.findPathThroughDoor(v.positions[i], v.closestKey(i, c).value, c).Some?
       else v.findPath(v.positions[i], v.closestKey(i, c).value).Some?
  }

  /** A free player that can reach a key of the colour. */
  predicate Candidate(v: KeyDoorView, taken: set<nat>, c: Color, throughDoors: bool, i: nat)
    requires ViewOK(v) && i < |v.positions|
  {
    Free(v, taken, i) && CanReachKey(v, i, c, throughDoors)
  }

  /** The Manhattan distance from a candidate to its closest key. */
  function KeyDistance(v: KeyDoorView, c: Color, i: nat): nat
    requires i < |v.positions| && v.closestKey(i, c).Some?
  {
    Distance(v.positions[i], v.closestKey(i, c).value)
  }

  /** `i` is the best candidate: no candidate is closer, and every earlier candidate is strictly further away. */
  predicate IsBest(v: KeyDoorView, taken: set<nat>, c: Color, throughDoors: bool, i: nat)
    requires ViewOK(v)
  {
    && i < |v.positions| && Candidate(v, taken, c, throughDoors, i)
    && (forall j :: 0 <= j < |v.positions| && Candidate(v, taken, c, throughDoors, j) ==>
          KeyDistance(v, c, i) <= KeyDistance(v, c, j))
    && (forall j :: 0 <= j < i && Candidate(v, taken, c, throughDoors, j) ==>
          KeyDistance(v, c, i) < KeyDistance(v, c, j))
  }

  /** The best candidate is unique: the characterisation fixes the player the scan returns. */
  lemma BestIsUnique(v: KeyDoorView, taken: set<nat>, c: Color, throughDoors: bool, i: nat, j: nat)
    requires ViewOK(v) && IsBest(v, taken, c, throughDoors, i) && IsBest(v, taken, c, throughDoors, j)
    ensures i == j
  {
  }

  /** The first free player holding the key, if any. */
  method FindPlayerWithKey(v: KeyDoorView, taken: set<nat>, c: Color) returns (r: Option<nat>)
    requires ViewOK(v)
    ensures r.None? <==> forall i :: 0 <= i < |v.positions| ==> !KeyHolder(v, taken, c, i)
    ensures r.Some? ==> && r.value < |v.positions| && KeyHolder(v, taken, c, r.value)
                        && forall j :: 0 <= j < r.value ==> !KeyHolder(v, taken, c, j)
  {
    for i := 0 to |v.positions|
      invariant forall j :: 0 <= j < i ==> !KeyHolder(v, taken, c, j)
    {
      if v.active[i] && i !in taken && v.hasKey(i, c) {
        assert KeyHolder(v, taken, c, i);
        return Some(i);
      }
    }
    return None;
  }

  /**
   * The best player for a colour: a candidate of minimal distance to its
   * key; a later candidate replaces the best so far only when strictly
   * closer.
   */
  method FindBestPlayer(v: KeyDoorView, taken: set<nat>, c: Color, throughDoors: bool)
    returns (best: Option<(nat, nat)>)
    requires ViewOK(v)
    ensures best.None? <==> forall i :: 0 <= i < |v.positions| ==> !Candidate(v, taken, c, throughDoors, i)
    ensures best.Some? ==> && IsBest(v, taken, c, throughDoors, best.value.0)
                           && best.value.1 == KeyDistance(v, c, best.value.0)
  {
    best := None;
    for i := 0 to |v.positions|
      invariant best.None? <==> forall j :: 0 <= j < i ==> !Candidate(v, taken, c, throughDoors, j)
      invariant best.Some? ==>
        && best.value.0 < i && Candidate(v, taken, c, throughDoors, best.value.0)
        && best.value.1 == KeyDistance(v, c, best.value.0)
        && (forall j :: 0 <= j < i && Candidate(v, taken, c, throughDoors, j) ==> best.value.1 <= KeyDistance(v, c, j))
        && (forall j :: 0 <= j < best.value.0 && Candidate(v, taken, c, throughDoors, j) ==> best.value.1 < KeyDistance(v, c, j))
    {
      if !v.active[i] || i in taken {
        assert !Candidate(v, taken, c, throughDoors, i);
        continue;
      }
      var keyPos := v.closestKey(i, c);
      if keyPos.Some? {
        var canReach := if throughDoors then v.findPathThroughDoor(v.positions[i], keyPos.value, c).Some?
                        else v.findPath(v.positions[i], keyPos.value).Some?;
        if canReach {
          assert Candidate(v, taken, c, throughDoors, i);
          var distance := Distance(v.positions[i], keyPos.value);
          if best.None? || distance < best.value.1 {
            best := Some((i, distance));
          }
        } else {
          assert !Candidate(v, taken, c, throughDoors, i);
        }
      } else {
        assert !Candidate(v, taken, c, throughDoors, i);
      }
    }
  }

  /**
   * A door of the colour has a neighbour the player stands on, or a seen
   * Empty neighbour the player has a path to.
   */
  predicate DoorReachable(v: KeyDoorView, i: nat, doors: seq<Position>)
    requires i < |v.positions|
  {
    exists d, k :: 0 <= d < |doors| && 0 <= k < 4 &&
      var n := Neighbors(doors[d])[k];
      n == v.positions[i] || (TileAt(v.tiles, n) == Some(Empty) && v.findPath(v.positions[i], n).Some?)
  }

  /**
   * The goal an assignment yields this tick: GetKey while fetching, if the
   * key is still known and reachable; OpenDoor while opening, if the key
   * is still held and a door of the colour is reachable.
   */
  function GoalFor(v: KeyDoorView, c: Color, a: ColorAssignment): (r: Option<Goal>)
    requires a.playerIndex < |v.positions|
    ensures r.Some? && a.phase == FetchKey ==> r == Some(GetKey(c)) && CanReachKey(v, a.playerIndex, c, false)
    ensures r.Some? && a.phase == KeyDoorPhase.OpenDoor ==> r == Some(Goal.OpenDoor(c)) && v.hasKey(a.playerIndex, c)
  {
    match a.phase
    case FetchKey =>
      if v.knowsKeyLocation(c) && v.closestKey(a.playerIndex, c).Some?
         && v.findPath(v.positions[a.playerIndex], v.closestKey(a.playerIndex, c).value).Some?
      then Some(GetKey(c)) else None
    case OpenDoor =>
      if v.hasKey(a.playerIndex, c) && c in v.doors && DoorReachable(v, a.playerIndex, v.doors[c])
      then Some(Goal.OpenDoor(c)) else None
  }

  /** What a fresh assignment satisfies: the first key holder opens, otherwise the best candidate fetches. */
  predicate NewlyAssigned(v: KeyDoorView, taken: set<nat>, c: Color, a: ColorAssignment)
    requires ViewOK(v)
  {
    && a.playerIndex < |v.positions|
    && (a.phase == KeyDoorPhase.OpenDoor ==>
          && KeyHolder(v, taken, c, a.playerIndex)
          && forall j :: 0 <= j < a.playerIndex ==> !KeyHolder(v, taken, c, j))
    && (a.phase == FetchKey ==>
          && (forall j :: 0 <= j < |v.positions| ==> !KeyHolder(v, taken, c, j))
          && v.knowsKeyLocation(c)
          && IsBest(v, taken, c, c in DoorsWithPlates(v), a.playerIndex))
  }

  /** A colour left unassigned: no free player holds its key, and none can reach a known key. */
  predicate NotAssignable(v: KeyDoorView, taken: set<nat>, c: Color)
    requires ViewOK(v)
  {
    && (forall j :: 0 <= j < |v.positions| ==> !KeyHolder(v, taken, c, j))
    && (v.knowsKeyLocation(c) ==> forall j :: 0 <= j < |v.positions| ==> !Candidate(v, taken, c, c in DoorsWithPlates(v), j))
  }
  /**
   * The assignment one unassigned colour receives: the first free key
   * holder opens the door; otherwise, if the key's location is known, the
   * best free candidate fetches the key, walking through the colour's
   * doors when the colour has a reachable plate.
   */
  method AssignColor(v: KeyDoorView, taken: set<nat>, doorsWithPlates: set<Color>, color: Color)
    returns (a: Option<ColorAssignment>)
    requires ViewOK(v) && doorsWithPlates == DoorsWithPlates(v)
    ensures a.Some? ==> NewlyAssigned(v, taken, color, a.value)
    ensures a.None? ==> NotAssignable(v, taken, color)
  {
    var playerWithKey := FindPlayerWithKey(v, taken, color);
    if playerWithKey.Some? {
      return Some(ColorAssignment(playerWithKey.value, KeyDoorPhase.OpenDoor));
    }
    if !v.knowsKeyLocation(color) {
      return None;
    }
    var best := FindBestPlayer(v, taken, color, v.twoPlayerMode && color in doorsWithPlates);
    if best.Some? {
      return Some(ColorAssignment(best.value.0, FetchKey));
    }
    return None;
  }

  /** `clean_assignments`: the table keeps exactly the assignments that still apply, unchanged. */
  ghost predicate Cleaned(v: KeyDoorView, before: map<Color, ColorAssignment>, after: map<Color, ColorAssignment>)
    requires ViewOK(v)
  {
    && (forall c :: c in after <==> c in before && Keeps(v, c, before[c]))
    && forall c :: c in after ==> after[c] == before[c]
  }

  /** `update_phases`: a player who now holds the key moves on from FetchKey to OpenDoor; nothing else changes. */
  ghost predicate Advanced(v: KeyDoorView, before: map<Color, ColorAssignment>, after: map<Color, ColorAssignment>)
    requires ViewOK(v)
  {
    && after.Keys == before.Keys
    && forall c :: c in after ==>
         && after[c].playerIndex == before[c].playerIndex
         && after[c].phase ==
              if before[c].phase == FetchKey && v.hasKey(before[c].playerIndex, c)
              then KeyDoorPhase.OpenDoor else before[c].phase
  }

  /**
   * `assign_new_colors`: old assignments stay; each new one is a closed
   * door's colour assigned as `NewlyAssigned` says, the players taken being
   * those of the old table; every closed door's colour left without one is
   * `NotAssignable`.
   */
  ghost predicate Extended(v: KeyDoorView, before: map<Color, ColorAssignment>, after: map<Color, ColorAssignment>)
    requires ViewOK(v)
  {
    && (forall c :: c in before ==> c in after && after[c] == before[c])
    && (forall c :: c in after && c !in before ==>
          && c in v.doors && !v.doorOpened(c)
          && NewlyAssigned(v, AssignedPlayers(before), c, after[c]))
    && forall c :: c in v.doors && c !in before && !v.doorOpened(c) && c !in after ==>
         NotAssignable(v, AssignedPlayers(before), c)
  }

  class KeyAndDoorStrategy {
    var colorAssignments: map<Color, ColorAssignment>

    constructor ()
      ensures colorAssignments == map[]
    {
      colorAssignments := map[];
    }

    /** `clean_assignments`: the table keeps exactly the assignments that still apply. */
    method CleanAssignments(v: KeyDoorView)
      requires ViewOK(v)
      modifies this
      ensures Cleaned(v, old(colorAssignments), colorAssignments)
      ensures InRange(v, colorAssignments)
    {
      ghost var before := colorAssignments;
      var remaining := colorAssignments.Keys;
      while remaining != {}
        invariant remaining <= before.Keys
        invariant forall c :: c in colorAssignments <==> c in before && (c in remaining || Keeps(v, c, before[c]))
        invariant forall c :: c in colorAssignments ==> colorAssignments[c] == before[c]
        decreases |remaining|
      {
        var c :| c in remaining;
        remaining := remaining - {c};
        if !Keeps(v, c, colorAssignments[c]) {
          colorAssignments := colorAssignments - {c};
        }
      }
    }

    /** `update_phases`: a player who now holds the key moves on from FetchKey to OpenDoor. */
    method UpdatePhases(v: KeyDoorView)
      requires ViewOK(v) && InRange(v, colorAssignments)
      modifies this
      ensures Advanced(v, old(colorAssignments), colorAssignments)
      ensures InRange(v, colorAssignments)
    {
      ghost var before := colorAssignments;
      var remaining := colorAssignments.Keys;
      while remaining != {}
        invariant remaining <= before.Keys && colorAssignments.Keys == before.Keys
        invariant forall c :: c in colorAssignments && c in remaining ==> colorAssignments[c] == before[c]
        invariant forall c :: c in colorAssignments && c !in remaining ==>
          && colorAssignments[c].playerIndex == before[c].playerIndex
          && colorAssignments[c].phase ==
               if before[c].phase == FetchKey && v.hasKey(before[c].playerIndex, c) then KeyDoorPhase.OpenDoor else before[c].phase
        decreases |remaining|
      {
        var c :| c in remaining;
        remaining := remaining - {c};
        var assignment := colorAssignments[c];
        if assignment.phase == FetchKey && v.hasKey(assignment.playerIndex, c) {
          colorAssignments := colorAssignments[c := assignment.(phase := KeyDoorPhase.OpenDoor)];
        }
      }
    }

    /**
     * `assign_new_colors`: every door colour without an assignment whose
     * door is still closed goes to the first free player holding its key
     * (OpenDoor), or else, if the key's location is known, to the best
     * free player (FetchKey). The free players are fixed at the start of
     * the call, so one player may receive several colours.
     */
    method AssignNewColors(v: KeyDoorView)
      requires ViewOK(v) && InRange(v, colorAssignments)
      modifies this
      ensures InRange(v, colorAssignments)
      ensures Extended(v, old(colorAssignments), colorAssignments)
    {
      ghost var before := colorAssignments;
      var unassignedColors := set c | c in v.doors && c !in colorAssignments && !v.doorOpened(c);
      var doorsWithPlates := DoorsWithPlates(v);
      var assignedPlayers := AssignedPlayers(colorAssignments);
      var remaining := unassignedColors;
      while remaining != {}
        invariant remaining <= unassignedColors
        invariant InRange(v, colorAssignments)
        invariant forall c :: c in before ==> c in colorAssignments && colorAssignments[c] == before[c]
        invariant forall c :: c in colorAssignments && c !in before ==>
          && c in unassignedColors && c !in remaining
          && NewlyAssigned(v, assignedPlayers, c, colorAssignments[c])
        invariant forall c :: c in unassignedColors && c !in remaining && c !in colorAssignments ==>
          NotAssignable(v, assignedPlayers, c)
        decreases |remaining|
      {
        var color :| color in remaining;
        remaining := remaining - {color};
        var assignment := AssignColor(v, assignedPlayers, doorsWithPlates, color);
        if assignment.Some? {
          colorAssignments := colorAssignments[color := assignment.value];
        }
      }
    }

    /**
     * `generate_goals`: one entry per player, set from an assignment of
     * that player that yields a goal. When a player holds two colours the
     * table's iteration order decides which goal is kept; here that order
     * is left open.
     */
    method GenerateGoals(v: KeyDoorView) returns (goals: seq<Option<Goal>>)
      requires ViewOK(v) && InRange(v, colorAssignments)
      ensures |goals| == |v.positions|
      ensures forall i :: 0 <= i < |goals| && goals[i].Some? ==>
        exists c :: c in colorAssignments && colorAssignments[c].playerIndex == i && GoalFor(v, c, colorAssignments[c]) == goals[i]
      ensures forall i :: 0 <= i < |goals| && goals[i].None? ==>
        forall c :: c in colorAssignments && colorAssignments[c].playerIndex == i ==> GoalFor(v, c, colorAssignments[c]).None?
    {
      goals := seq(|v.positions|, i => None);
      var remaining := colorAssignments.Keys;
      while remaining != {}
        invariant remaining <= colorAssignments.Keys && |goals| == |v.positions|
        invariant forall i :: 0 <= i < |goals| && goals[i].Some? ==>
          exists c :: c in colorAssignments && c !in remaining && colorAssignments[c].playerIndex == i
                   && GoalFor(v, c, colorAssignments[c]) == goals[i]
        invariant forall i :: 0 <= i < |goals| && goals[i].None? ==>
          forall c :: c in colorAssignments && c !in remaining && colorAssignments[c].playerIndex == i ==>
            GoalFor(v, c, colorAssignments[c]).None?
        decreases |remaining|
      {
        var color :| color in remaining;
        remaining := remaining - {color};
        var assignment := colorAssignments[color];
        var goal := GoalFor(v, color, assignment);
        if goal.Some? {
          goals := goals[assignment.playerIndex := goal];
        }
      }
    }

    /**
     * `try_select_coop`: clean, advance, assign, then hand out the goals
     * of players that do not have one yet.
     */
    method TrySelectCoop(v: KeyDoorView, currentGoals: seq<Option<Goal>>)
      returns (r: seq<Option<Goal>>, ghost cleaned: map<Color, ColorAssignment>, ghost advanced: map<Color, ColorAssignment>)
      requires ViewOK(v)
      modifies this
      ensures Cleaned(v, old(colorAssignments), cleaned)
      ensures Advanced(v, cleaned, advanced)
      ensures Extended(v, advanced, colorAssignments)
      ensures |r| == |v.positions|
      ensures forall i :: 0 <= i < |r| && i < |currentGoals| && currentGoals[i].Some? ==> r[i].None?
      ensures forall i :: 0 <= i < |r| && r[i].Some? ==>
        exists c :: c in colorAssignments && colorAssignments[c].playerIndex == i && GoalFor(v, c, colorAssignments[c]) == r[i]
      ensures forall i :: 0 <= i < |r| && r[i].None? && !(i < |currentGoals| && currentGoals[i].Some?) ==>
        forall c :: c in colorAssignments && colorAssignments[c].playerIndex == i ==> GoalFor(v, c, colorAssignments[c]).None?
    {
      CleanAssignments(v);
      cleaned := colorAssignments;
      UpdatePhases(v);
      advanced := colorAssignments;
      AssignNewColors(v);
      var goals := GenerateGoals(v);
      r := seq(|goals|, i requires 0 <= i < |goals| =>
        if i < |currentGoals| && currentGoals[i].Some? then None else goals[i]);
    }
  }
}
