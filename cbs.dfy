/**
 * Conflict-Based Search for several agents on one grid (infra/cbs.rs).
 *
 * The high level keeps a constraint tree: each node holds a list of
 * constraints, one path per agent and the sum of the path lengths. The low
 * level is the shared A* loop (`InfraPathfinding.Search`) with unit cost,
 * whose step test is the caller's walkability test together with the
 * agent's constraints. The tree's open list is a binary heap ordered by cost
 * alone; the model keeps it as a multiset and pops any node of least cost.
 */
module Cbs {
  import opened Wrappers
  import opened Types
  import opened InfraPathfinding

  const MaxCtNodes: nat := 1000

  datatype Agent = Agent(id: nat, start: Position, goal: Position)

  /** A constraint names the agent by its `id`. */
  datatype Constraint =
    | VertexConstraint(agent: nat, pos: Position, time: int)
    | EdgeConstraint(agent: nat, from: Position, to: Position, time: int)

  datatype ConflictType =
    | VertexConflict
    | EdgeConflict(from1: Position, from2: Position)
    | SequentialConflict(prevPosJ: Position)

  /** A conflict names the two agents by their index in the agent list. */
  datatype Conflict = Conflict(agent1: nat, agent2: nat, pos: Position, time: nat, kind: ConflictType)

  datatype CTNode = CTNode(constraints: seq<Constraint>, solution: seq<seq<Position>>, cost: int)

  // ---------------------------------------------------------------------
  // Paths, lengths and constraints
  // ---------------------------------------------------------------------

  /** The sum of the lengths of all paths. */
  function SumLengths(paths: seq<seq<Position>>): nat
  {
    if paths == [] then 0 else SumLengths(paths[..|paths| - 1]) + |paths[|paths| - 1]|
  }

  /** Replacing one path changes the sum by the difference of the two lengths. */
  lemma {:induction false} SumLengthsUpdate(paths: seq<seq<Position>>, i: nat, path: seq<Position>)
    requires i < |paths|
    ensures SumLengths(paths[i := path]) == SumLengths(paths) - |paths[i]| + |path|
    decreases |paths|
  {
    var last := |paths| - 1;
    assert paths[i := path][..last] == if i == last then paths[..last] else paths[..last][i := path];
    if i < last {
      SumLengthsUpdate(paths[..last], i, path);
    }
  }

  /** Paths that are all empty have length sum zero. */
  lemma {:induction false} SumLengthsAllEmpty(paths: seq<seq<Position>>)
    requires forall i :: 0 <= i < |paths| ==> paths[i] == []
    ensures SumLengths(paths) == 0
    decreases |paths|
  {
    if paths != [] {
      SumLengthsAllEmpty(paths[..|paths| - 1]);
    }
  }

  /** `CTNode::new`: no constraints and one empty path per agent. */
  function NewCTNode(numAgents: nat): (r: CTNode)
    ensures r.constraints == [] && |r.solution| == numAgents && r.cost == SumLengths(r.solution)
  {
    var solution := seq(numAgents, i => []);
    SumLengthsAllEmpty(solution);
    CTNode([], solution, 0)
  }

  /** `get_position_at_time`: the path's cell at `t`, and its last cell once the path has ended. */
  function GetPositionAtTime(path: seq<Position>, t: nat): (r: Position)
    requires |path| > 0
    ensures r in path
    ensures t < |path| ==> r == path[t]
    ensures t >= |path| ==> r == path[|path| - 1]
  {
    if t < |path| then path[t] else path[|path| - 1]
  }

  /** Once both times are at or past the end of the path, the position no longer changes. */
  lemma StaysAtGoal(path: seq<Position>, t: nat, t': nat)
    requires |path| > 0 && |path| - 1 <= t && |path| - 1 <= t'
    ensures GetPositionAtTime(path, t) == GetPositionAtTime(path, t')
  {
  }

  /** The test one constraint applies to the move from `from` onto `to` at `time`. */
  predicate Forbids(c: Constraint, to: Position, from: Position, time: int)
  {
    match c
    case VertexConstraint(_, pos, t) => pos == to && t == time
    case EdgeConstraint(_, cf, ct, t) => cf == from && ct == to && t == time
  }

  /**
   * `violates_constraints`: some vertex constraint is on `to` at `time`, or
   * some edge constraint is on the move from `from` to `to` at `time`. The
   * agent recorded in a constraint is not looked at here.
   */
  function ViolatesConstraints(to: Position, from: Position, time: int, constraints: seq<Constraint>): (r: bool)
    ensures r <==>
      || (exists i :: 0 <= i < |constraints| && constraints[i].VertexConstraint?
                      && constraints[i].pos == to && constraints[i].time == time)
      || (exists i :: 0 <= i < |constraints| && constraints[i].EdgeConstraint?
                      && constraints[i].from == from && constraints[i].to == to && constraints[i].time == time)
  {
    if constraints == [] then false
    else
      var last := |constraints| - 1;
      var r := ViolatesConstraints(to, from, time, constraints[..last]) || Forbids(constraints[last], to, from, time);
      assert forall i :: 0 <= i < last ==> constraints[..last][i] == constraints[i];
      r
  }

  /** The constraints recorded for the agent with the given id, in order. */
  function AgentConstraints(constraints: seq<Constraint>, id: nat): (r: seq<Constraint>)
    ensures forall c :: c in r <==> c in constraints && c.agent == id
    ensures |r| <= |constraints|
  {
    if constraints == [] then []
    else
      var last := |constraints| - 1;
      var prefix := AgentConstraints(constraints[..last], id);
      assert constraints == constraints[..last] + [constraints[last]];
      if constraints[last].agent == id then prefix + [constraints[last]] else prefix
  }

  /** A path the low-level search may return for `agent`. */
  ghost predicate AgentPath(path: seq<Position>, agent: Agent, width: int, height: int,
                            isWalkable: (Position, nat, Position) -> bool)
  {
    && |path| >= 1 && path[0] == agent.start && path[|path| - 1] == agent.goal
    && forall k :: 1 <= k < |path| ==>
         IsAdjacent(path[k - 1], path[k]) && InGrid(path[k], width, height) && isWalkable(path[k], agent.id, agent.goal)
  }

  /** No step of the path breaks one of the constraints, step `k` being taken at time `k`. */
  predicate Respects(path: seq<Position>, constraints: seq<Constraint>)
  {
    forall k :: 1 <= k < |path| ==> !ViolatesConstraints(path[k], path[k - 1], k, constraints)
  }

  /**
   * `find_path_with_constraints`: the shared A* loop with unit cost, stepping
   * only onto cells the walkability test admits and by moves the
   * constraints allow.
   */
  method FindPathWithConstraints(width: int, height: int, start: Position, goal: Position, agentId: nat,
                                 constraints: seq<Constraint>, isWalkable: (Position, nat, Position) -> bool)
    returns (r: Option<seq<Position>>, ghost expansions: nat)
    ensures expansions <= MaxExpansions + 1
    ensures r.Some? ==> expansions <= MaxExpansions
    ensures start == goal ==> r == Some([goal])
    ensures r.Some? ==> AgentPath(r.value, Agent(agentId, start, goal), width, height, isWalkable)
    ensures r.Some? ==> Respects(r.value, constraints)
  {
    if start == goal {
      return Some([goal]), 0;
    }
    var accept := (from: Position, to: Position, tick: nat) =>
      isWalkable(to, agentId, goal) && !ViolatesConstraints(to, from, tick, constraints);
    var cost := (to: Position, tick: nat) => 1;
    var found;
    found, expansions := Search(width, height, start, goal, accept, cost);
    r := found;
    if r.Some? {
      var path := r.value;
      forall k | 1 <= k < |path|
        ensures isWalkable(path[k], agentId, goal) && !ViolatesConstraints(path[k], path[k - 1], k, constraints)
      {
        assert accept(path[k - 1], path[k], k);
      }
    }
  }

  // ---------------------------------------------------------------------
  // Conflicts
  // ---------------------------------------------------------------------

  /** The longest path's length, 0 for no paths. */
  function MaxLen(paths: seq<seq<Position>>): (r: nat)
    ensures forall i :: 0 <= i < |paths| ==> |paths[i]| <= r
    ensures paths != [] ==> exists i :: 0 <= i < |paths| && |paths[i]| == r
    ensures paths == [] ==> r == 0
  {
    if paths == [] then 0
    else
      var last := |paths| - 1;
      var m := MaxLen(paths[..last]);
      assert forall i :: 0 <= i < last ==> paths[..last][i] == paths[i];
      if |paths[last]| > m then |paths[last]| else m
  }

  ghost predicate WellFormed(solution: seq<seq<Position>>, agents: seq<Agent>)
  {
    |agents| >= |solution| && forall i :: 0 <= i < |solution| ==> |solution[i]| > 0
  }

  function At(solution: seq<seq<Position>>, a: nat, t: nat): Position
    requires a < |solution| && |solution[a]| > 0
  {
    GetPositionAtTime(solution[a], t)
  }

  /** Agents `i` and `j` are on one cell at `t`, and that cell is not a goal they share. */
  ghost predicate VertexClash(solution: seq<seq<Position>>, agents: seq<Agent>, i: nat, j: nat, t: nat)
    requires WellFormed(solution, agents) && i < |solution| && j < |solution|
  {
    At(solution, i, t) == At(solution, j, t)
    && !(agents[i].goal == agents[j].goal && At(solution, i, t) == agents[i].goal)
  }

  /** Agent `i` enters at `t` the cell agent `j` held at `t - 1`, while `j` has moved on. */
  ghost predicate SequentialClash(solution: seq<seq<Position>>, i: nat, j: nat, t: nat)
    requires i < |solution| && j < |solution| && |solution[i]| > 0 && |solution[j]| > 0
  {
    t > 0 && At(solution, i, t) == At(solution, j, t - 1) && At(solution, i, t) != At(solution, j, t)
  }

  ghost predicate Clash(solution: seq<seq<Position>>, agents: seq<Agent>, i: nat, j: nat, t: nat)
    requires WellFormed(solution, agents) && i < |solution| && j < |solution|
  {
    VertexClash(solution, agents, i, j, t) || SequentialClash(solution, i, j, t)
  }

  /** No pair `i < j` clashes at any time before `maxT`. */
  ghost predicate ClashFreeBefore(solution: seq<seq<Position>>, agents: seq<Agent>, maxT: nat)
    requires WellFormed(solution, agents)
  {
    forall t, i, j :: 0 <= t < maxT && 0 <= i < j < |solution| ==> !Clash(solution, agents, i, j, t)
  }

  /** The triple `(t, i, j)` comes before the conflict's in the scan order (time, then first, then second agent). */
  predicate ScannedBefore(t: nat, i: nat, j: nat, c: Conflict)
  {
    t < c.time || (t == c.time && (i < c.agent1 || (i == c.agent1 && j < c.agent2)))
  }

  /** What a conflict reported for `solution` describes. */
  ghost predicate IsConflict(solution: seq<seq<Position>>, agents: seq<Agent>, c: Conflict)
    requires WellFormed(solution, agents)
  {
    && c.agent1 < c.agent2 < |solution|
    && c.pos == At(solution, c.agent1, c.time)
    && match c.kind
       case VertexConflict => VertexClash(solution, agents, c.agent1, c.agent2, c.time)
       case SequentialConflict(prev) =>
         && !VertexClash(solution, agents, c.agent1, c.agent2, c.time)
         && SequentialClash(solution, c.agent1, c.agent2, c.time)
         && prev == At(solution, c.agent2, c.time - 1)
       case EdgeConflict(_, _) => false
  }

  /**
   * `find_first_conflict`: scans time steps up to the longest path, and in
   * each step the pairs `i < j` in order. A vertex clash (outside a shared
   * goal) is reported first, then a sequential clash. The source then also
   * tests for two agents swapping cells; `SwapIsCaughtEarlier` shows that
   * test can never succeed once the other two have failed, so the model
   * leaves it out.
   */
  method FindFirstConflict(solution: seq<seq<Position>>, agents: seq<Agent>) returns (r: Option<Conflict>)
    requires WellFormed(solution, agents)
    ensures r.None? <==> ClashFreeBefore(solution, agents, MaxLen(solution))
    ensures r.Some? ==> IsConflict(solution, agents, r.value) && r.value.time < MaxLen(solution)
    ensures r.Some? ==>
      forall t, i, j :: 0 <= i < j < |solution| && ScannedBefore(t, i, j, r.value) ==> !Clash(solution, agents, i, j, t)
  {
    var numAgents := |solution|;
    var maxLen := MaxLen(solution);
    var t := 0;
    while t < maxLen
      invariant t <= maxLen
      invariant ClashFreeBefore(solution, agents, t)
    {
      var i := 0;
      while i < numAgents
        invariant i <= numAgents
        invariant ClashFreeBefore(solution, agents, t)
        invariant forall i', j :: 0 <= i' < i && i' < j < numAgents ==> !Clash(solution, agents, i', j, t)
      {
        var j := i + 1;
        while j < numAgents
          invariant i < j <= numAgents
          invariant ClashFreeBefore(solution, agents, t)
          invariant forall i', j' :: 0 <= i' < i && i' < j' < numAgents ==> !Clash(solution, agents, i', j', t)
          invariant forall j' :: i < j' < j ==> !Clash(solution, agents, i, j', t)
        {
          var posI := GetPositionAtTime(solution[i], t);
          var posJ := GetPositionAtTime(solution[j], t);
          if posI == posJ {
            if agents[i].goal == agents[j].goal && posI == agents[i].goal {
              j := j + 1;
              continue;
            }
            assert Clash(solution, agents, i, j, t);
            return Some(Conflict(i, j, posI, t, VertexConflict));
          }
          if t > 0 {
            var prevJ := GetPositionAtTime(solution[j], t - 1);
            if posI == prevJ && posI != posJ {
              assert Clash(solution, agents, i, j, t);
              return Some(Conflict(i, j, posI, t, SequentialConflict(prevJ)));
            }
          }
          j := j + 1;
        }
        i := i + 1;
      }
      t := t + 1;
    }
    return None;
  }

  /**
   * The swap test of `find_first_conflict` is dead: two agents that swap
   * cells between `t - 1` and `t` either meet at `t` (a vertex clash, or
   * both already at a goal they share) or make a sequential clash.
   */
  lemma SwapIsCaughtEarlier(solution: seq<seq<Position>>, agents: seq<Agent>, i: nat, j: nat, t: nat)
    requires WellFormed(solution, agents) && i < j < |solution| && t > 0
    requires At(solution, i, t) == At(solution, j, t - 1) && At(solution, j, t) == At(solution, i, t - 1)
    ensures Clash(solution, agents, i, j, t)
            || (At(solution, i, t) == At(solution, j, t) && At(solution, i, t) == agents[i].goal
                && agents[i].goal == agents[j].goal)
  {
  }

  /**
   * With no conflict found, the agents keep apart at every time, not just up
   * to the longest path: afterwards every agent rests on its last cell.
   */
  lemma {:induction false} ClashFreeForever(solution: seq<seq<Position>>, agents: seq<Agent>, i: nat, j: nat, t: nat)
    requires WellFormed(solution, agents) && ClashFreeBefore(solution, agents, MaxLen(solution))
    requires i < j < |solution|
    ensures !Clash(solution, agents, i, j, t)
  {
    var m := MaxLen(solution);
    if t >= m {
      assert |solution[i]| <= m && |solution[j]| <= m;
      StaysAtGoal(solution[i], t, m - 1);
      StaysAtGoal(solution[j], t, m - 1);
      StaysAtGoal(solution[j], t, t - 1);
      assert !Clash(solution, agents, i, j, m - 1);
    }
  }

  /** With no conflict found, no two agents ever trade cells. */
  lemma NoSwapWhenClashFree(solution: seq<seq<Position>>, agents: seq<Agent>, i: nat, j: nat, t: nat)
    requires WellFormed(solution, agents) && ClashFreeBefore(solution, agents, MaxLen(solution))
    requires i < j < |solution| && t > 0
    requires At(solution, i, t) != At(solution, i, t - 1)
    ensures !(At(solution, i, t) == At(solution, j, t - 1) && At(solution, j, t) == At(solution, i, t - 1))
  {
    ClashFreeForever(solution, agents, i, j, t);
  }

  // ---------------------------------------------------------------------
  // Constraints for a conflict
  // ---------------------------------------------------------------------

  /**
   * `add_constraint` as written: it tells the two agents of a conflict apart
   * by comparing the agent's `id` with `conflict.agent1`, which is an index
   * into the agent list.
   */
  function NewConstraintAsWritten(agent: nat, conflict: Conflict): (r: Constraint)
    ensures r.agent == agent
  {
    match conflict.kind
    case VertexConflict => VertexConstraint(agent, conflict.pos, conflict.time)
    case EdgeConflict(from1, from2) =>
      EdgeConstraint(agent, if agent == conflict.agent1 then from1 else from2, conflict.pos, conflict.time)
    case SequentialConflict(prev) =>
      VertexConstraint(agent, prev, if agent == conflict.agent1 then conflict.time else conflict.time - 1)
  }

  /**
   * The constraint with the two agents told apart by their index: the
   * constraint still records the agent's `id`, which is what the replanning
   * filters on.
   */
  function NewConstraint(agentId: nat, agentIdx: nat, conflict: Conflict): (r: Constraint)
    ensures r.agent == agentId
    ensures agentId == agentIdx ==> r == NewConstraintAsWritten(agentId, conflict)
  {
    match conflict.kind
    case VertexConflict => VertexConstraint(agentId, conflict.pos, conflict.time)
    case EdgeConflict(from1, from2) =>
      EdgeConstraint(agentId, if agentIdx == conflict.agent1 then from1 else from2, conflict.pos, conflict.time)
    case SequentialConflict(prev) =>
      VertexConstraint(agentId, prev, if agentIdx == conflict.agent1 then conflict.time else conflict.time - 1)
  }

  /** The step of agent `a`'s path that a conflict blames on it. */
  function BlamedStep(conflict: Conflict, a: nat): int
  {
    if conflict.kind.SequentialConflict? && a != conflict.agent1 then conflict.time - 1 else conflict.time
  }

  /**
   * The constraint added for either agent of a reported conflict forbids the
   * step that agent's current path takes at the blamed time, whenever that
   * step is a move of the path (not its start, not after its end). So the
   * replanned path must differ there.
   */
  lemma ConstraintRulesOutConflict(solution: seq<seq<Position>>, agents: seq<Agent>, conflict: Conflict, a: nat)
    requires WellFormed(solution, agents) && IsConflict(solution, agents, conflict)
    requires a == conflict.agent1 || a == conflict.agent2
    requires 1 <= BlamedStep(conflict, a) < |solution[a]|
    ensures var k := BlamedStep(conflict, a);
      ViolatesConstraints(solution[a][k], solution[a][k - 1], k, [NewConstraint(agents[a].id, a, conflict)])
  {
    var k := BlamedStep(conflict, a);
    var c := NewConstraint(agents[a].id, a, conflict);
    assert [c][0] == c;
  }

  /**
   * The comparison of an id with an index goes wrong once the ids are not
   * the indices: an agent with id 5 listed first, in a sequential conflict
   * with the agent listed second, is barred from the other agent's cell one
   * step too early, and its current path survives the new constraint.
   */
  lemma AsWrittenMissesSequentialConflict()
    ensures var agents := [Agent(5, Position(0, 0), Position(2, 0)), Agent(1, Position(1, 0), Position(3, 0))];
      var solution := [[Position(0, 0), Position(1, 0), Position(2, 0)], [Position(1, 0), Position(2, 0), Position(3, 0)]];
      var conflict := Conflict(0, 1, Position(1, 0), 1, SequentialConflict(Position(1, 0)));
      && WellFormed(solution, agents)
      && IsConflict(solution, agents, conflict)
      && !ViolatesConstraints(solution[0][1], solution[0][0], 1, [NewConstraintAsWritten(agents[0].id, conflict)])
      && ViolatesConstraints(solution[0][1], solution[0][0], 1, [NewConstraint(agents[0].id, 0, conflict)])
  {
    var agents := [Agent(5, Position(0, 0), Position(2, 0)), Agent(1, Position(1, 0), Position(3, 0))];
    var solution := [[Position(0, 0), Position(1, 0), Position(2, 0)], [Position(1, 0), Position(2, 0), Position(3, 0)]];
    var conflict := Conflict(0, 1, Position(1, 0), 1, SequentialConflict(Position(1, 0)));
    assert At(solution, 0, 1) == Position(1, 0);
    assert At(solution, 1, 1) == Position(2, 0);
    assert At(solution, 1, 0) == Position(1, 0);
    assert [NewConstraintAsWritten(5, conflict)][0] == VertexConstraint(5, Position(1, 0), 0);
    assert [NewConstraint(5, 0, conflict)][0] == VertexConstraint(5, Position(1, 0), 1);
  }

  /** `add_constraint`: appends exactly the constraint for the conflict; the paths and cost stay. */
  function AddConstraint(node: CTNode, agentId: nat, agentIdx: nat, conflict: Conflict): (r: CTNode)
    ensures r.constraints == node.constraints + [NewConstraint(agentId, agentIdx, conflict)]
    ensures r.solution == node.solution && r.cost == node.cost
  {
    node.(constraints := node.constraints + [NewConstraint(agentId, agentIdx, conflict)])
  }

  // ---------------------------------------------------------------------
  // The constraint tree
  // ---------------------------------------------------------------------

  /** Every node of the tree: one search path per agent, and `cost` is their length sum. */
  ghost predicate NodeOK(node: CTNode, agents: seq<Agent>, width: int, height: int,
                         isWalkable: (Position, nat, Position) -> bool)
  {
    && |node.solution| == |agents|
    && (forall i :: 0 <= i < |agents| ==> AgentPath(node.solution[i], agents[i], width, height, isWalkable))
    && node.cost == SumLengths(node.solution)
  }

  /**
   * `replan_and_update`: searches again for `agent` under the constraints
   * recorded for its id and puts the new path in its slot, adjusting the
   * cost by the change in length.
   */
  method ReplanAndUpdate(node: CTNode, agent: Agent, agentIdx: nat, width: int, height: int,
                         isWalkable: (Position, nat, Position) -> bool)
    returns (r: Option<CTNode>)
    requires agentIdx < |node.solution|
    ensures r.Some? ==> |r.value.solution| == |node.solution|
    ensures r.Some? ==>
      var path := r.value.solution[agentIdx];
      && r.value.constraints == node.constraints
      && r.value.solution == node.solution[agentIdx := path]
      && r.value.cost == node.cost - |node.solution[agentIdx]| + |path|
      && AgentPath(path, agent, width, height, isWalkable)
      && Respects(path, AgentConstraints(node.constraints, agent.id))
    ensures r.Some? && node.cost == SumLengths(node.solution) ==> r.value.cost == SumLengths(r.value.solution)
  {
    var agentConstraints := AgentConstraints(node.constraints, agent.id);
    var found, expansions := FindPathWithConstraints(width, height, agent.start, agent.goal, agent.id,
                                                     agentConstraints, isWalkable);
    if found.None? {
      return None;
    }
    var newPath := found.value;
    SumLengthsUpdate(node.solution, agentIdx, newPath);
    var cost := node.cost - |node.solution[agentIdx]| + |newPath|;
    r := Some(CTNode(node.constraints, node.solution[agentIdx := newPath], cost));
  }

  /** `create_child_with_constraint`: a copy of the parent with one more constraint, replanned for the agent. */
  method CreateChildWithConstraint(parent: CTNode, agent: Agent, agentIdx: nat, conflict: Conflict,
                                   width: int, height: int, isWalkable: (Position, nat, Position) -> bool)
    returns (r: Option<CTNode>)
    requires agentIdx < |parent.solution|
    ensures r.Some? ==> |r.value.solution| == |parent.solution|
    ensures r.Some? ==>
      && r.value.constraints == parent.constraints + [NewConstraint(agent.id, agentIdx, conflict)]
      && r.value.solution == parent.solution[agentIdx := r.value.solution[agentIdx]]
      && AgentPath(r.value.solution[agentIdx], agent, width, height, isWalkable)
      && Respects(r.value.solution[agentIdx], AgentConstraints(r.value.constraints, agent.id))
    ensures r.Some? && parent.cost == SumLengths(parent.solution) ==> r.value.cost == SumLengths(r.value.solution)
  {
    var child := AddConstraint(parent, agent.id, agentIdx, conflict);
    r := ReplanAndUpdate(child, agent, agentIdx, width, height, isWalkable);
  }

  /** Replacing the path of agent `a` by another of its search paths keeps a node well formed. */
  lemma ReplaceKeepsNodeOK(node: CTNode, child: CTNode, agents: seq<Agent>, a: nat, width: int, height: int,
                           isWalkable: (Position, nat, Position) -> bool)
    requires NodeOK(node, agents, width, height, isWalkable) && a < |agents|
    requires |child.solution| == |node.solution|
    requires child.solution == node.solution[a := child.solution[a]]
    requires AgentPath(child.solution[a], agents[a], width, height, isWalkable)
    requires child.cost == SumLengths(child.solution)
    ensures NodeOK(child, agents, width, height, isWalkable)
  {
  }

  /** The child for agent index `a` of the conflict, as a well-formed tree node. */
  method ChildFor(parent: CTNode, conflict: Conflict, a: nat, agents: seq<Agent>, width: int, height: int,
                  isWalkable: (Position, nat, Position) -> bool)
    returns (r: Option<CTNode>)
    requires NodeOK(parent, agents, width, height, isWalkable) && a < |agents|
    ensures r.Some? ==> NodeOK(r.value, agents, width, height, isWalkable)
    ensures r.Some? ==> r.value.constraints == parent.constraints + [NewConstraint(agents[a].id, a, conflict)]
  {
    r := CreateChildWithConstraint(parent, agents[a], a, conflict, width, height, isWalkable);
    if r.Some? {
      ReplaceKeepsNodeOK(parent, r.value, agents, a, width, height, isWalkable);
    }
  }

  /** `create_child_nodes`: up to two children, for the first agent of the conflict and then the second. */
  method CreateChildNodes(parent: CTNode, conflict: Conflict, agents: seq<Agent>, width: int, height: int,
                          isWalkable: (Position, nat, Position) -> bool)
    returns (children: seq<CTNode>)
    requires NodeOK(parent, agents, width, height, isWalkable)
    requires conflict.agent1 < |agents| && conflict.agent2 < |agents|
    ensures |children| <= 2
    ensures forall k :: 0 <= k < |children| ==> NodeOK(children[k], agents, width, height, isWalkable)
    ensures forall k :: 0 <= k < |children| ==> |children[k].constraints| == |parent.constraints| + 1
  {
    children := [];
    var first := ChildFor(parent, conflict, conflict.agent1, agents, width, height, isWalkable);
    if first.Some? {
      children := [first.value];
    }
    var second := ChildFor(parent, conflict, conflict.agent2, agents, width, height, isWalkable);
    if second.Some? {
      children := children + [second.value];
    }
  }

  predicate Cheapest(node: CTNode, open: multiset<CTNode>)
  {
    forall other :: other in open ==> node.cost <= other.cost
  }

  lemma {:induction false} CheapestExists(open: multiset<CTNode>)
    requires open != multiset{}
    ensures exists node :: node in open && Cheapest(node, open)
    decreases |open|
  {
    var x :| x in open;
    var rest := open - multiset{x};
    assert open == rest + multiset{x};
    if rest == multiset{} {
      assert Cheapest(x, open);
    } else {
      CheapestExists(rest);
      var y :| y in rest && Cheapest(y, rest);
      if x.cost <= y.cost {
        assert Cheapest(x, open);
      } else {
        assert Cheapest(y, open);
      }
    }
  }

  /** The root: a path for every agent without constraints; `None` if some agent has none. */
  method InitialNode(agents: seq<Agent>, width: int, height: int, isWalkable: (Position, nat, Position) -> bool)
    returns (r: Option<CTNode>)
    ensures r.Some? ==> NodeOK(r.value, agents, width, height, isWalkable) && r.value.constraints == []
    ensures agents == [] ==> r == Some(NewCTNode(0))
  {
    var root := NewCTNode(|agents|);
    for agentIdx := 0 to |agents|
      invariant |root.solution| == |agents| && root.constraints == []
      invariant root.cost == SumLengths(root.solution)
      invariant forall i :: 0 <= i < agentIdx ==> AgentPath(root.solution[i], agents[i], width, height, isWalkable)
    {
      var next := ReplanAndUpdate(root, agents[agentIdx], agentIdx, width, height, isWalkable);
      if next.None? {
        return None;
      }
      root := next.value;
    }
    return Some(root);
  }

  /**
   * `CBS::find_paths`. A returned solution holds one search path per agent
   * and has no conflict at any time; more than `MaxCtNodes` popped tree
   * nodes give `None`; no agents give the empty solution.
   */
  method FindPaths(width: int, height: int, agents: seq<Agent>, isWalkable: (Position, nat, Position) -> bool)
    returns (r: Option<seq<seq<Position>>>, ghost nodesExpanded: nat)
    ensures nodesExpanded <= MaxCtNodes + 1
    ensures r.Some? ==> nodesExpanded <= MaxCtNodes
    ensures agents == [] ==> r == Some([])
    ensures r.Some? ==>
      && |r.value| == |agents|
      && (forall i :: 0 <= i < |agents| ==> AgentPath(r.value[i], agents[i], width, height, isWalkable))
      && WellFormed(r.value, agents)
      && forall i, j, t :: 0 <= i < j < |agents| ==> !Clash(r.value, agents, i, j, t)
  {
    var expanded: nat := 0;
    nodesExpanded := 0;
    var root := InitialNode(agents, width, height, isWalkable);
    if root.None? {
      return None, nodesExpanded;
    }
    var open: multiset<CTNode> := multiset{root.value};
    while open != multiset{}
      invariant expanded <= MaxCtNodes && nodesExpanded == expanded
      invariant forall node :: node in open ==> NodeOK(node, agents, width, height, isWalkable)
      invariant agents == [] ==> expanded == 0 && open == multiset{NewCTNode(0)}
      decreases MaxCtNodes - expanded, |open|
    {
      CheapestExists(open);
      var node :| node in open && Cheapest(node, open);
      open := open - multiset{node};
      expanded := expanded + 1;
      nodesExpanded := expanded;
      if expanded > MaxCtNodes {
        return None, nodesExpanded;
      }
      var conflict := FindFirstConflict(node.solution, agents);
      if conflict.None? {
        forall i, j, t | 0 <= i < j < |agents|
          ensures !Clash(node.solution, agents, i, j, t)
        {
          ClashFreeForever(node.solution, agents, i, j, t);
        }
        return Some(node.solution), nodesExpanded;
      }
      var children := CreateChildNodes(node, conflict.value, agents, width, height, isWalkable);
      for k := 0 to |children|
        invariant forall n :: n in open ==> NodeOK(n, agents, width, height, isWalkable)
      {
        open := open + multiset{children[k]};
      }
    }
    return None, nodesExpanded;
  }
}
