/**
 * Strategy arbitration (strategies/planner.rs): once per tick, the goal
 * slots of all players are filled first come, first served: forced random
 * exploration, then the emergency strategies, then the strategies that
 * chose goals on the previous tick and want to keep them, then every
 * strategy in its fixed order until all slots are filled. A slot once
 * filled is never overwritten; empty slots default to Explore.
 *
 * The concrete strategies are not part of this model: each is given by
 * its type, its two flags and its answers for this tick.
 */
module StrategyPlanners {
  import opened Wrappers
  import opened Types
  import opened Swoq
  import opened Goals

  datatype StrategyType = Individual | Coop

  /**
   * One strategy as the planner sees it during a tick: `trySelect` answers
   * for a player index, `trySelectCoop` answers for all players given the
   * goals chosen so far.
   */
  datatype Strategy = Strategy(kind: StrategyType, isEmergency: bool, prioritize: bool,
                               trySelect: nat -> Option<Goal>,
                               trySelectCoop: seq<Option<Goal>> -> seq<Option<Goal>>)

  /** What the planner reads about one player. */
  datatype PlayerInfo = PlayerInfo(position: Position, forceRandomExploreTicks: int)

  const UsizeModulus: int := 0x1_0000_0000_0000_0000
  const I32Min: int := -0x8000_0000
  const I32Max: int := 0x7fff_ffff

  /** At most this many random indices are tried. */
  const MaxRandomTries: nat := 10

  /** Random targets lie strictly further than this from the player. */
  const MinRandomDistance: nat := 5

  /** `world.tick as usize` on a 64-bit target: a negative i32 is sign-extended. */
  function SeedOf(tick: int): (s: nat)
    requires I32Min <= tick <= I32Max
    ensures s < UsizeModulus
    ensures 0 <= tick ==> s == tick
    ensures tick < 0 ==> s == UsizeModulus + tick
  {
    if tick < 0 then UsizeModulus + tick else tick
  }

  /** `all_players_have_no_goals`. */
  function AllPlayersHaveNoGoals(goals: seq<Option<Goal>>): (r: bool)
    ensures r <==> forall i :: 0 <= i < |goals| ==> goals[i].None?
  {
    if goals == [] then true else goals[0].None? && AllPlayersHaveNoGoals(goals[1..])
  }

  /** `any_player_needs_goal`. */
  function AnyPlayerNeedsGoal(goals: seq<Option<Goal>>): (r: bool)
    ensures r <==> exists i :: 0 <= i < |goals| && goals[i].None?
  {
    if goals == [] then false else goals[0].None? || AnyPlayerNeedsGoal(goals[1..])
  }

  /**
   * The seen Empty tiles further than five steps from `from`, in the
   * iteration order `order` of the tile map.
   */
  function FarEmptyPositions(order: seq<Position>, tiles: map<Position, Tile>, from: Position): (r: seq<Position>)
    ensures |r| <= |order|
    ensures forall p :: p in r <==> p in order && TileAt(tiles, p) == Some(Empty) && Distance(from, p) > MinRandomDistance
  {
    if order == [] then []
    else
      var rest := FarEmptyPositions(order[1..], tiles, from);
      if TileAt(tiles, order[0]) == Some(Empty) && Distance(from, order[0]) > MinRandomDistance
      then [order[0]] + rest
      else rest
  }

  /** The candidate tried at attempt `k` when the first attempt uses `seed`. */
  function Attempt(candidates: seq<Position>, seed: nat, k: nat): Position
    requires |candidates| > 0
  {
    candidates[((seed + k) % UsizeModulus) % |candidates|]
  }

  /** The first of `tries` attempts from `seed` whose candidate is reachable. */
  function FirstReachable(candidates: seq<Position>, seed: nat, tries: nat, reachable: Position -> bool): Option<Position>
    requires |candidates| > 0
    decreases tries
  {
    if tries == 0 then None
    else
      var target := candidates[seed % |candidates|];
      if reachable(target) then Some(target)
      else FirstReachable(candidates, (seed + 1) % UsizeModulus, tries - 1, reachable)
  }

  lemma ShiftAttempt(candidates: seq<Position>, seed: nat, k: nat)
    requires |candidates| > 0 && seed < UsizeModulus
    ensures Attempt(candidates, (seed + 1) % UsizeModulus, k) == Attempt(candidates, seed, k + 1)
  {
    if seed + 1 < UsizeModulus {
      assert (seed + 1) % UsizeModulus == seed + 1;
    } else {
      assert (seed + 1) % UsizeModulus == 0;
      ModAddModulus(k);
    }
  }

  /** Adding the modulus does not change a remainder. */
  lemma ModAddModulus(k: nat)
    ensures (UsizeModulus + k) % UsizeModulus == k % UsizeModulus
  {
  }

  /**
   * The search stops at the first reachable attempt, and gives up only
   * when all its attempts are unreachable.
   */
  lemma {:induction false} FirstReachableSpec(candidates: seq<Position>, seed: nat, tries: nat, reachable: Position -> bool)
    requires |candidates| > 0 && seed < UsizeModulus
    ensures var r := FirstReachable(candidates, seed, tries, reachable);
      && (r.None? <==> forall k :: 0 <= k < tries ==> !reachable(Attempt(candidates, seed, k)))
      && (r.Some? ==> exists k :: 0 <= k < tries && r.value == Attempt(candidates, seed, k) && reachable(r.value)
                               && forall k' :: 0 <= k' < k ==> !reachable(Attempt(candidates, seed, k')))
    decreases tries
  {
    if tries > 0 {
      var next := (seed + 1) % UsizeModulus;
      assert Attempt(candidates, seed, 0) == candidates[seed % |candidates|];
      FirstReachableSpec(candidates, next, tries - 1, reachable);
      forall k | 0 <= k < tries - 1
        ensures Attempt(candidates, next, k) == Attempt(candidates, seed, k + 1)
      {
        ShiftAttempt(candidates, seed, k);
      }
      var r := FirstReachable(candidates, seed, tries, reachable);
      if !reachable(candidates[seed % |candidates|]) {
        if r.Some? {
          var k :| 0 <= k < tries - 1 && r.value == Attempt(candidates, next, k) && reachable(r.value)
                   && forall k' :: 0 <= k' < k ==> !reachable(Attempt(candidates, next, k'));
          assert forall k' :: 0 <= k' < k + 1 ==> !reachable(Attempt(candidates, seed, k')) by {
            forall k' | 0 <= k' < k + 1
              ensures !reachable(Attempt(candidates, seed, k'))
            {
              if k' > 0 {
                assert Attempt(candidates, seed, k') == Attempt(candidates, next, k' - 1);
              }
            }
          }
        } else {
          forall k | 0 <= k < tries
            ensures !reachable(Attempt(candidates, seed, k))
          {
            if k > 0 {
              assert Attempt(candidates, seed, k) == Attempt(candidates, next, k - 1);
            }
          }
        }
      }
    }
  }

  /**
   * The target `find_random_reachable_position` picks: `reachable` stands
   * for the world's path search from the player's position.
   */
  function RandomTarget(tiles: map<Position, Tile>, order: seq<Position>, player: Position, tick: int,
                        reachable: Position -> bool): Option<Position>
    requires I32Min <= tick <= I32Max
  {
    var candidates := FarEmptyPositions(order, tiles, player);
    if |candidates| == 0 then None
    else FirstReachable(candidates, SeedOf(tick), MaxRandomTries, reachable)
  }

  /**
   * `find_random_reachable_position`: a reachable Empty tile further than
   * five steps, tried at no more than ten indices `seed % len`, where the
   * seed starts at the tick and is incremented with 64-bit wrap-around.
   */
  method FindRandomReachablePosition(tiles: map<Position, Tile>, order: seq<Position>, player: Position, tick: int,
                                     reachable: Position -> bool) returns (r: Option<Position>)
    requires I32Min <= tick <= I32Max
    ensures r == RandomTarget(tiles, order, player, tick, reachable)
    ensures r.Some? ==> && r.value in order && TileAt(tiles, r.value) == Some(Empty)
                        && Distance(player, r.value) > MinRandomDistance && reachable(r.value)
    ensures r.Some? ==> var candidates := FarEmptyPositions(order, tiles, player);
      exists k :: 0 <= k < MaxRandomTries && r.value == Attempt(candidates, SeedOf(tick), k)
    ensures r.None? <==> var candidates := FarEmptyPositions(order, tiles, player);
      |candidates| == 0 || forall k :: 0 <= k < MaxRandomTries ==> !reachable(Attempt(candidates, SeedOf(tick), k))
  {
    var emptyPositions := FarEmptyPositions(order, tiles, player);
    if |emptyPositions| == 0 {
      return None;
    }
    r := TryAttempts(emptyPositions, SeedOf(tick), reachable);
    FirstReachableSpec(emptyPositions, SeedOf(tick), MaxRandomTries, reachable);
  }

  /** The ten attempts of `find_random_reachable_position` over a non-empty candidate list. */
  method TryAttempts(candidates: seq<Position>, seed0: nat, reachable: Position -> bool) returns (r: Option<Position>)
    requires |candidates| > 0 && seed0 < UsizeModulus
    ensures r == FirstReachable(candidates, seed0, MaxRandomTries, reachable)
  {
    var seed: nat := seed0;
    for attempt := 0 to MaxRandomTries
      invariant seed < UsizeModulus && attempt <= MaxRandomTries
      invariant FirstReachable(candidates, seed, MaxRandomTries - attempt, reachable)
                == FirstReachable(candidates, seed0, MaxRandomTries, reachable)
    {
      var index := seed % |candidates|;
      var target := candidates[index];
      if reachable(target) {
        return Some(target);
      }
      seed := (seed + 1) % UsizeModulus;
    }
    return None;
  }

  /**
   * The answers a strategy gives for the current selection: an Individual
   * strategy answers per player, a Coop strategy is consulted only when
   * some slot is empty, and its answers past the player count are ignored.
   */
  function Offers(s: Strategy, selected: seq<Option<Goal>>): (r: seq<Option<Goal>>)
    ensures |r| == |selected|
    ensures s.kind == Coop && !AnyPlayerNeedsGoal(selected) ==> forall i :: 0 <= i < |r| ==> r[i].None?
  {
    match s.kind
    case Individual => seq(|selected|, i requires 0 <= i < |selected| => s.trySelect(i))
    case Coop =>
      if AnyPlayerNeedsGoal(selected) then
        var coop := s.trySelectCoop(selected);
        seq(|selected|, i requires 0 <= i < |selected| => if i < |coop| then coop[i] else None)
      else seq(|selected|, i => None)
  }

  /**
   * The effect of processing strategy `idx` with answers `offers`: empty
   * slots take the answer, filled slots keep their goal, and each slot
   * that was filled now records `idx`.
   */
  ghost predicate Processed(offers: seq<Option<Goal>>, idx: nat,
                            oldSel: seq<Option<Goal>>, oldCur: seq<Option<nat>>,
                            sel: seq<Option<Goal>>, cur: seq<Option<nat>>)
  {
    && |offers| == |oldSel| == |oldCur| == |sel| == |cur|
    && forall j :: 0 <= j < |sel| ==>
         && sel[j] == (if oldSel[j].None? then offers[j] else oldSel[j])
         && cur[j] == (if oldSel[j].None? && offers[j].Some? then Some(idx) else oldCur[j])
  }

  /** A filled slot is never overwritten, and keeps the strategy that filled it. */
  lemma ProcessedKeepsFilled(offers: seq<Option<Goal>>, idx: nat, oldSel: seq<Option<Goal>>, oldCur: seq<Option<nat>>,
                             sel: seq<Option<Goal>>, cur: seq<Option<nat>>, j: nat)
    requires Processed(offers, idx, oldSel, oldCur, sel, cur)
    requires j < |oldSel| && oldSel[j].Some?
    ensures sel[j] == oldSel[j] && cur[j] == oldCur[j]
  {
  }

  /**
   * What holds of the slots during a tick: a forced random target in a
   * slot stays there unattributed, every other unattributed slot is
   * empty, and an attributed slot holds a goal of that strategy.
   */
  ghost predicate SlotsInv(strategies: seq<Strategy>, forced: seq<Option<Goal>>,
                           sel: seq<Option<Goal>>, cur: seq<Option<nat>>)
  {
    && |sel| == |forced| && |cur| == |forced|
    && forall i :: 0 <= i < |sel| ==>
         && (forced[i].Some? ==> sel[i] == forced[i] && cur[i].None?)
         && (cur[i].None? ==> sel[i] == forced[i])
         && (cur[i].Some? ==>
               && cur[i].value < |strategies| && sel[i].Some?
               && (strategies[cur[i].value].kind == Individual ==> sel[i] == strategies[cur[i].value].trySelect(i)))
  }

  lemma ProcessedPreservesSlots(strategies: seq<Strategy>, forced: seq<Option<Goal>>, idx: nat,
                                oldSel: seq<Option<Goal>>, oldCur: seq<Option<nat>>,
                                sel: seq<Option<Goal>>, cur: seq<Option<nat>>)
    requires idx < |strategies| && SlotsInv(strategies, forced, oldSel, oldCur)
    requires Processed(Offers(strategies[idx], oldSel), idx, oldSel, oldCur, sel, cur)
    ensures SlotsInv(strategies, forced, sel, cur)
  {
    var offers := Offers(strategies[idx], oldSel);
    forall i | 0 <= i < |sel|
      ensures strategies[idx].kind == Individual && oldSel[i].None? ==> offers[i] == strategies[idx].trySelect(i)
    {
    }
  }

  /** The goal slots and, per slot, the strategy that filled it. */
  datatype Slots = Slots(sel: seq<Option<Goal>>, cur: seq<Option<nat>>)

  /** `process_strategy` on values: strategy `idx` offers its answers to the empty slots. */
  function Step(strategies: seq<Strategy>, idx: nat, s: Slots): (r: Slots)
    requires idx < |strategies| && |s.cur| == |s.sel|
    ensures |r.sel| == |s.sel| && |r.cur| == |s.sel|
  {
    var offers := Offers(strategies[idx], s.sel);
    Slots(seq(|s.sel|, j requires 0 <= j < |s.sel| => if s.sel[j].None? then offers[j] else s.sel[j]),
          seq(|s.sel|, j requires 0 <= j < |s.sel| => if s.sel[j].None? && offers[j].Some? then Some(idx) else s.cur[j]))
  }

  /** The method's effect is the value-level step. */
  lemma ProcessedIsStep(strategies: seq<Strategy>, idx: nat, oldSel: seq<Option<Goal>>, oldCur: seq<Option<nat>>,
                        sel: seq<Option<Goal>>, cur: seq<Option<nat>>)
    requires idx < |strategies| && |oldCur| == |oldSel|
    requires Processed(Offers(strategies[idx], oldSel), idx, oldSel, oldCur, sel, cur)
    ensures Slots(sel, cur) == Step(strategies, idx, Slots(oldSel, oldCur))
  {
    var r := Step(strategies, idx, Slots(oldSel, oldCur));
    assert sel == r.sel;
    assert cur == r.cur;
  }

  /** Every index names a strategy. */
  predicate ValidOrder(n: nat, order: seq<nat>)
  {
    forall k :: 0 <= k < |order| ==> order[k] < n
  }

  /** Processing the strategies `order[0]`, `order[1]`, ... one after the other. */
  function Fold(strategies: seq<Strategy>, order: seq<nat>, s: Slots): (r: Slots)
    requires ValidOrder(|strategies|, order) && |s.cur| == |s.sel|
    ensures |r.sel| == |s.sel| && |r.cur| == |s.sel|
    decreases |order|
  {
    if order == [] then s else Fold(strategies, order[1..], Step(strategies, order[0], s))
  }

  lemma {:induction false} FoldSnoc(strategies: seq<Strategy>, order: seq<nat>, idx: nat, s: Slots)
    requires ValidOrder(|strategies|, order) && idx < |strategies| && |s.cur| == |s.sel|
    ensures Fold(strategies, order + [idx], s) == Step(strategies, idx, Fold(strategies, order, s))
    decreases |order|
  {
    if order == [] {
      assert order + [idx] == [idx];
    } else {
      assert (order + [idx])[1..] == order[1..] + [idx];
      FoldSnoc(strategies, order[1..], idx, Step(strategies, order[0], s));
    }
  }

  /**
   * First come, first served: a slot still empty after a run of
   * strategies was empty before, and no Individual strategy of the run
   * had a goal for it.
   */
  lemma {:induction false} FoldLeavesEmpty(strategies: seq<Strategy>, order: seq<nat>, s: Slots, j: nat)
    requires ValidOrder(|strategies|, order) && |s.cur| == |s.sel| && j < |s.sel|
    requires Fold(strategies, order, s).sel[j].None?
    ensures s.sel[j].None?
    ensures forall k :: 0 <= k < |order| && strategies[order[k]].kind == Individual ==>
              strategies[order[k]].trySelect(j).None?
    decreases |order|
  {
    if order != [] {
      var s1 := Step(strategies, order[0], s);
      FoldLeavesEmpty(strategies, order[1..], s1, j);
      forall k | 0 <= k < |order| && strategies[order[k]].kind == Individual
        ensures strategies[order[k]].trySelect(j).None?
      {
        if k > 0 {
          assert order[k] == order[1..][k - 1];
        }
      }
    }
  }

  /** A slot filled before a run of strategies keeps its goal and its strategy through the run. */
  lemma {:induction false} FoldKeepsFilled(strategies: seq<Strategy>, order: seq<nat>, s: Slots, j: nat)
    requires ValidOrder(|strategies|, order) && |s.cur| == |s.sel| && j < |s.sel|
    requires s.sel[j].Some?
    ensures Fold(strategies, order, s).sel[j] == s.sel[j]
    ensures Fold(strategies, order, s).cur[j] == s.cur[j]
    decreases |order|
  {
    if order != [] {
      FoldKeepsFilled(strategies, order[1..], Step(strategies, order[0], s), j);
    }
  }

  /** The emergency strategies among the first `n`, in list order. */
  function EmergencyIndices(strategies: seq<Strategy>, n: nat): (r: seq<nat>)
    requires n <= |strategies|
    ensures ValidOrder(|strategies|, r)
  {
    if n == 0 then []
    else EmergencyIndices(strategies, n - 1) + (if strategies[n - 1].isEmergency then [n - 1] else [])
  }

  predicate Increasing(r: seq<nat>)
  {
    forall a, b :: 0 <= a < b < |r| ==> r[a] < r[b]
  }

  /** `EmergencyIndices` lists exactly the emergency strategies below `n`, each once, in increasing order. */
  lemma {:induction false} EmergencyIndicesSpec(strategies: seq<Strategy>, n: nat)
    requires n <= |strategies|
    ensures forall i: nat :: i in EmergencyIndices(strategies, n) <==> i < n && strategies[i].isEmergency
    ensures Increasing(EmergencyIndices(strategies, n))
  {
    if n > 0 {
      EmergencyIndicesSpec(strategies, n - 1);
      var r := EmergencyIndices(strategies, n - 1);
      var r' := EmergencyIndices(strategies, n);
      if strategies[n - 1].isEmergency {
        assert r' == r + [n - 1];
        forall a, b | 0 <= a < b < |r'|
          ensures r'[a] < r'[b]
        {
          assert Increasing(r);
          assert r'[a] == r[a] && r[a] in r;
          if b < |r| {
            assert r'[b] == r[b];
          }
        }
      } else {
        assert r' == r;
      }
    }
  }

  lemma EmergencyFoldNext(strategies: seq<Strategy>, n: nat, s0: Slots, before: Slots, after: Slots)
    requires n < |strategies| && |s0.cur| == |s0.sel|
    requires before == Fold(strategies, EmergencyIndices(strategies, n), s0)
    requires after == if strategies[n].isEmergency then Step(strategies, n, before) else before
    ensures after == Fold(strategies, EmergencyIndices(strategies, n + 1), s0)
  {
    var e := EmergencyIndices(strategies, n);
    if strategies[n].isEmergency {
      FoldSnoc(strategies, e, n, s0);
      assert EmergencyIndices(strategies, n + 1) == e + [n];
    } else {
      assert EmergencyIndices(strategies, n + 1) == e + [];
      assert e + [] == e;
    }
  }

  /** The indices `0, 1, ..., n - 1`. */
  function Upto(n: nat): (r: seq<nat>)
    ensures |r| == n && forall i :: 0 <= i < n ==> r[i] == i
  {
    if n == 0 then [] else Upto(n - 1) + [n - 1]
  }

  /** No slot has been filled by any strategy. */
  function Unfilled(n: nat): (r: seq<Option<nat>>)
    ensures |r| == n && forall i :: 0 <= i < n ==> r[i].None?
  {
    seq(n, i => None)
  }

  /** The strategy indices that filled some slot on the previous tick. */
  function LastUsed(last: seq<Option<nat>>): set<nat>
  {
    set i | 0 <= i < |last| && last[i].Some? :: last[i].value
  }

  /**
   * An order in which the prioritized phase may visit its strategies:
   * each distinct index used last tick that names a strategy asking to be
   * prioritized, exactly once.
   */
  ghost predicate PrioritizedOrder(strategies: seq<Strategy>, last: seq<Option<nat>>, order: seq<nat>)
  {
    && ValidOrder(|strategies|, order)
    && (forall a, b :: 0 <= a < b < |order| ==> order[a] != order[b])
    && forall x: nat :: x in order <==> x in LastUsed(last) && x < |strategies| && strategies[x].prioritize
  }

  /** Every slot is filled. */
  predicate AllFilled(sel: seq<Option<Goal>>)
  {
    forall i :: 0 <= i < |sel| ==> sel[i].Some?
  }

  /** The forced random-exploration goals of the first phase. */
  ghost function ForcedGoals(players: seq<PlayerInfo>, tiles: map<Position, Tile>, order: seq<Position>, tick: int,
                             reachable: (Position, Position) -> bool): (r: seq<Option<Goal>>)
    requires I32Min <= tick <= I32Max
    ensures |r| == |players|
  {
    seq(|players|, i requires 0 <= i < |players| =>
      if players[i].forceRandomExploreTicks > 0 then
        var t := RandomTarget(tiles, order, players[i].position, tick, p => reachable(players[i].position, p));
        if t.Some? then Some(RandomExplore(t.value)) else None
      else None)
  }

  class StrategyPlanner {
    const strategies: seq<Strategy>
    /** The strategy index that filled each player's slot on the previous tick. */
    var lastStrategyPerPlayer: seq<Option<nat>>

    /** `StrategyPlanner::new`, over the given strategies in priority order. */
    constructor (strategies: seq<Strategy>)
      ensures this.strategies == strategies && lastStrategyPerPlayer == []
    {
      this.strategies := strategies;
      lastStrategyPerPlayer := [];
    }

    /** `process_strategy`: offers the empty slots to one strategy. */
    static method ProcessStrategy(s: Strategy, idx: nat, selected: array<Option<Goal>>, current: array<Option<nat>>)
      requires selected.Length == current.Length
      modifies selected, current
      ensures Processed(Offers(s, old(selected[..])), idx, old(selected[..]), old(current[..]), selected[..], current[..])
    {
      ghost var offers := Offers(s, selected[..]);
      ghost var sel0, cur0 := selected[..], current[..];
      match s.kind {
        case Individual =>
          for j := 0 to selected.Length
            invariant forall k :: 0 <= k < j ==>
              selected[k] == (if sel0[k].None? then offers[k] else sel0[k]) &&
              current[k] == (if sel0[k].None? && offers[k].Some? then Some(idx) else cur0[k])
            invariant forall k :: j <= k < selected.Length ==> selected[k] == sel0[k] && current[k] == cur0[k]
          {
            if selected[j].None? {
              var goal := s.trySelect(j);
              if goal.Some? {
                selected[j] := goal;
                current[j] := Some(idx);
              }
            }
          }
        case Coop =>
          if AnyPlayerNeedsGoal(selected[..]) {
            var coopGoals := s.trySelectCoop(selected[..]);
            var bound := if selected.Length < |coopGoals| then selected.Length else |coopGoals|;
            for j := 0 to bound
              invariant forall k :: 0 <= k < j ==>
                selected[k] == (if sel0[k].None? then offers[k] else sel0[k]) &&
                current[k] == (if sel0[k].None? && offers[k].Some? then Some(idx) else cur0[k])
              invariant forall k :: j <= k < selected.Length ==> selected[k] == sel0[k] && current[k] == cur0[k]
            {
              if selected[j].None? && coopGoals[j].Some? {
                selected[j] := coopGoals[j];
                current[j] := Some(idx);
              }
            }
          }
      }
    }

    /**
     * `select_goal`: one goal per player. `order` lists the tile map in
     * its iteration order, and `reachable(from, to)` stands for the
     * world's path search.
     */
    method SelectGoal(players: seq<PlayerInfo>, tiles: map<Position, Tile>, order: seq<Position>, tick: int,
                      reachable: (Position, Position) -> bool)
      returns (goals: seq<Goal>, ghost prioritized: seq<nat>, ghost processed: nat)
      requires I32Min <= tick <= I32Max
      modifies this`lastStrategyPerPlayer
      ensures |goals| == |players| && |lastStrategyPerPlayer| == |players|
      ensures var forced := ForcedGoals(players, tiles, order, tick, reachable);
        forall i :: 0 <= i < |players| ==>
          && (forced[i].Some? ==> goals[i] == forced[i].value && lastStrategyPerPlayer[i].None?)
          && (lastStrategyPerPlayer[i].None? && forced[i].None? ==> goals[i] == Explore)
      ensures forall i :: 0 <= i < |players| && lastStrategyPerPlayer[i].Some? ==>
          && lastStrategyPerPlayer[i].value < |strategies|
          && (strategies[lastStrategyPerPlayer[i].value].kind == Individual ==>
                Some(goals[i]) == strategies[lastStrategyPerPlayer[i].value].trySelect(i))
      ensures processed <= |strategies|
      ensures processed < |strategies| ==>
        forall i :: 0 <= i < |players| ==> lastStrategyPerPlayer[i].Some? || ForcedGoals(players, tiles, order, tick, reachable)[i].Some?
      // the three phases, in order, on the slots left by forced exploration
      ensures PrioritizedOrder(strategies,
        if |old(lastStrategyPerPlayer)| == |players| then old(lastStrategyPerPlayer) else Unfilled(|players|),
        prioritized)
      ensures var afterEmergencies := Fold(strategies, EmergencyIndices(strategies, |strategies|),
            Slots(ForcedGoals(players, tiles, order, tick, reachable), Unfilled(|players|)));
        var afterPrioritized := Fold(strategies, prioritized, afterEmergencies);
        var final := Fold(strategies, Upto(processed), afterPrioritized);
        && (forall k :: 0 < k < processed ==> !AllFilled(Fold(strategies, Upto(k), afterPrioritized).sel))
        && (processed < |strategies| ==> AllFilled(final.sel))
        && lastStrategyPerPlayer == final.cur
        && forall i :: 0 <= i < |players| ==> goals[i] == (if final.sel[i].Some? then final.sel[i].value else Explore)
    {
      var numPlayers := |players|;
      var selected := new Option<Goal>[numPlayers](i => None);
      var current := new Option<nat>[numPlayers](i => None);
      ghost var forced := ForcedGoals(players, tiles, order, tick, reachable);

      if |lastStrategyPerPlayer| != numPlayers {
        lastStrategyPerPlayer := Unfilled(numPlayers);
      }

      ghost var last := lastStrategyPerPlayer;
      ForceRandomExploration(players, tiles, order, tick, reachable, selected);
      assert SlotsInv(strategies, forced, selected[..], current[..]);
      assert current[..] == Unfilled(numPlayers);
      ghost var start := Slots(selected[..], current[..]);
      assert start == Slots(forced, Unfilled(numPlayers));
      ProcessEmergencies(forced, selected, current);
      ghost var afterEmergencies := Slots(selected[..], current[..]);
      assert afterEmergencies == Fold(strategies, EmergencyIndices(strategies, |strategies|), start);
      prioritized := ProcessPrioritized(lastStrategyPerPlayer, forced, selected, current);
      ghost var afterPrioritized := Slots(selected[..], current[..]);
      assert afterPrioritized == Fold(strategies, prioritized, afterEmergencies);
      processed := ProcessInOrder(forced, selected, current);
      ghost var final := Slots(selected[..], current[..]);
      assert final == Fold(strategies, Upto(processed), afterPrioritized);

      lastStrategyPerPlayer := current[..];
      goals := seq(numPlayers, i requires 0 <= i < numPlayers reads selected =>
        if selected[i].Some? then selected[i].value else Explore);
      assert forall i :: 0 <= i < numPlayers ==> goals[i] == (if final.sel[i].Some? then final.sel[i].value else Explore);
    }

    /** First phase: players forced into random exploration get a random reachable target. */
    static method ForceRandomExploration(players: seq<PlayerInfo>, tiles: map<Position, Tile>, order: seq<Position>,
                                         tick: int, reachable: (Position, Position) -> bool, selected: array<Option<Goal>>)
      requires I32Min <= tick <= I32Max
      requires selected.Length == |players| && forall k :: 0 <= k < selected.Length ==> selected[k].None?
      modifies selected
      ensures selected[..] == ForcedGoals(players, tiles, order, tick, reachable)
    {
      ghost var forced := ForcedGoals(players, tiles, order, tick, reachable);
      for playerIndex := 0 to |players|
        invariant forall k :: 0 <= k < playerIndex ==> selected[k] == forced[k]
        invariant forall k :: playerIndex <= k < |players| ==> selected[k].None?
      {
        if players[playerIndex].forceRandomExploreTicks > 0 {
          var pos := players[playerIndex].position;
          var target := FindRandomReachablePosition(tiles, order, pos, tick, p => reachable(pos, p));
          if target.Some? {
            selected[playerIndex] := Some(RandomExplore(target.value));
          }
        }
      }
      assert selected[..] == forced;
    }

    /** Second phase: every emergency strategy, in list order. */
    method ProcessEmergencies(ghost forced: seq<Option<Goal>>, selected: array<Option<Goal>>, current: array<Option<nat>>)
      requires SlotsInv(strategies, forced, selected[..], current[..])
      modifies selected, current
      ensures SlotsInv(strategies, forced, selected[..], current[..])
      ensures Slots(selected[..], current[..])
           == Fold(strategies, EmergencyIndices(strategies, |strategies|), Slots(old(selected[..]), old(current[..])))
    {
      ghost var s0 := Slots(selected[..], current[..]);
      for strategyIdx := 0 to |strategies|
        invariant SlotsInv(strategies, forced, selected[..], current[..])
        invariant Slots(selected[..], current[..]) == Fold(strategies, EmergencyIndices(strategies, strategyIdx), s0)
      {
        EmergencyStep(strategyIdx, forced, s0, selected, current);
      }
    }

    /** One turn of the emergency loop: strategy `strategyIdx` runs if it is an emergency. */
    method EmergencyStep(strategyIdx: nat, ghost forced: seq<Option<Goal>>, ghost s0: Slots,
                         selected: array<Option<Goal>>, current: array<Option<nat>>)
      requires strategyIdx < |strategies| && |s0.cur| == |s0.sel|
      requires SlotsInv(strategies, forced, selected[..], current[..])
      requires Slots(selected[..], current[..]) == Fold(strategies, EmergencyIndices(strategies, strategyIdx), s0)
      modifies selected, current
      ensures SlotsInv(strategies, forced, selected[..], current[..])
      ensures Slots(selected[..], current[..]) == Fold(strategies, EmergencyIndices(strategies, strategyIdx + 1), s0)
    {
      ghost var sel0, cur0 := selected[..], current[..];
      if strategies[strategyIdx].isEmergency {
        ProcessStrategy(strategies[strategyIdx], strategyIdx, selected, current);
        ProcessedPreservesSlots(strategies, forced, strategyIdx, sel0, cur0, selected[..], current[..]);
        ProcessedIsStep(strategies, strategyIdx, sel0, cur0, selected[..], current[..]);
      }
      EmergencyFoldNext(strategies, strategyIdx, s0, Slots(sel0, cur0), Slots(selected[..], current[..]));
    }

    /**
     * Third phase: each distinct strategy that filled a slot last tick and
     * asks to be prioritized, in the hash set's order, which `order`
     * records; indices past the strategy list are skipped.
     */
    method ProcessPrioritized(last: seq<Option<nat>>, ghost forced: seq<Option<Goal>>,
                              selected: array<Option<Goal>>, current: array<Option<nat>>)
      returns (ghost order: seq<nat>)
      requires SlotsInv(strategies, forced, selected[..], current[..])
      modifies selected, current
      ensures SlotsInv(strategies, forced, selected[..], current[..])
      ensures PrioritizedOrder(strategies, last, order)
      ensures Slots(selected[..], current[..]) == Fold(strategies, order, Slots(old(selected[..]), old(current[..])))
    {
      var pending := LastUsed(last);
      ghost var initial := pending;
      ghost var s0 := Slots(selected[..], current[..]);
      order := [];
      while pending != {}
        invariant SlotsInv(strategies, forced, selected[..], current[..])
        invariant pending <= initial && ValidOrder(|strategies|, order)
        invariant forall a, b :: 0 <= a < b < |order| ==> order[a] != order[b]
        invariant forall x: nat :: x in order <==>
          x in initial && x !in pending && x < |strategies| && strategies[x].prioritize
        invariant Slots(selected[..], current[..]) == Fold(strategies, order, s0)
        decreases |pending|
      {
        var strategyIdx :| strategyIdx in pending;
        pending := pending - {strategyIdx};
        if strategyIdx < |strategies| && strategies[strategyIdx].prioritize {
          ghost var sel0, cur0 := selected[..], current[..];
          ProcessStrategy(strategies[strategyIdx], strategyIdx, selected, current);
          ProcessedPreservesSlots(strategies, forced, strategyIdx, sel0, cur0, selected[..], current[..]);
          ProcessedIsStep(strategies, strategyIdx, sel0, cur0, selected[..], current[..]);
          FoldSnoc(strategies, order, strategyIdx, s0);
          order := order + [strategyIdx];
        }
      }
    }

    /**
     * Last phase: the strategies in list order, stopping after the first
     * one that leaves every slot filled; `processed` is how many ran.
     */
    method ProcessInOrder(ghost forced: seq<Option<Goal>>, selected: array<Option<Goal>>, current: array<Option<nat>>)
      returns (ghost processed: nat)
      requires SlotsInv(strategies, forced, selected[..], current[..])
      modifies selected, current
      ensures SlotsInv(strategies, forced, selected[..], current[..])
      ensures processed <= |strategies|
      ensures Slots(selected[..], current[..]) == Fold(strategies, Upto(processed), Slots(old(selected[..]), old(current[..])))
      ensures forall k :: 0 < k < processed ==>
        !AllFilled(Fold(strategies, Upto(k), Slots(old(selected[..]), old(current[..]))).sel)
      ensures processed < |strategies| ==> AllFilled(selected[..])
    {
      ghost var s0 := Slots(selected[..], current[..]);
      processed := 0;
      var strategyIdx := 0;
      while strategyIdx < |strategies|
        invariant strategyIdx <= |strategies| && processed == strategyIdx
        invariant SlotsInv(strategies, forced, selected[..], current[..])
        invariant Slots(selected[..], current[..]) == Fold(strategies, Upto(strategyIdx), s0)
        invariant forall k :: 0 < k <= strategyIdx ==> !AllFilled(Fold(strategies, Upto(k), s0).sel)
      {
        ghost var sel0, cur0 := selected[..], current[..];
        ProcessStrategy(strategies[strategyIdx], strategyIdx, selected, current);
        ProcessedPreservesSlots(strategies, forced, strategyIdx, sel0, cur0, selected[..], current[..]);
        ProcessedIsStep(strategies, strategyIdx, sel0, cur0, selected[..], current[..]);
        FoldSnoc(strategies, Upto(strategyIdx), strategyIdx, s0);
        processed := strategyIdx + 1;
        var allFilled := AllSome(selected);
        if allFilled {
          break;
        }
        strategyIdx := strategyIdx + 1;
      }
    }

    /** `selected_goals.iter().all(|g| g.is_some())`. */
    static method AllSome(selected: array<Option<Goal>>) returns (r: bool)
      ensures r <==> AllFilled(selected[..])
    {
      r := !AnyPlayerNeedsGoal(selected[..]);
    }
  }
}
