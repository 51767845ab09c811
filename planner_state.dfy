/**
 * Per-player planning records and goal-swap detection for the rule-based
 * planner (planners/heuristic/planner_state.rs).
 *
 * The last four goal pairs of the two players are kept in a four-slot ring
 * buffer; `goalPairIndex` is the slot the next pair goes to, so it also
 * holds the oldest pair.
 */
module PlannerStates {
  import opened Wrappers
  import opened Goals

  type GoalPair = (Option<Goal>, Option<Goal>)

  const HistorySize: nat := 4

  datatype PlayerPlannerState = PlayerPlannerState(currentGoal: Option<Goal>, previousGoal: Option<Goal>,
                                                   forceRandomExploreTicks: int)

  /** `PlayerPlannerState::new`. */
  const FreshPlayerState := PlayerPlannerState(None, None, 0)

  /** The four slots read oldest first, starting at the slot the next pair will overwrite. */
  function Chronological(h: seq<GoalPair>, index: nat): (r: seq<GoalPair>)
    requires |h| == HistorySize && index < HistorySize
    ensures |r| == HistorySize
    ensures forall k :: 0 <= k < HistorySize ==> r[k] == h[(index + k) % HistorySize]
  {
    [h[index], h[(index + 1) % 4], h[(index + 2) % 4], h[(index + 3) % 4]]
  }

  /**
   * The swap pattern on four pairs listed oldest first: the newest pair is
   * the pair two steps back with the players exchanged, and so is the pair
   * before it; both newest goals are set and differ.
   */
  predicate SwapPattern(history: seq<GoalPair>)
    requires |history| == HistorySize
  {
    var t3, t2, t1, t := history[0], history[1], history[2], history[3];
    && t.0 == t2.1 && t.1 == t2.0
    && t1.0 == t3.1 && t1.1 == t3.0
    && t.0.Some? && t.1.Some?
    && t.0 != t.1
  }

  /** Writing the next pair drops the oldest one and appends the new one. */
  lemma RecordShifts(h: seq<GoalPair>, index: nat, p: GoalPair)
    requires |h| == HistorySize && index < HistorySize
    ensures Chronological(h[index := p], (index + 1) % HistorySize) == Chronological(h, index)[1..] + [p]
  {
  }

  /** Exchanges the two players' goals. */
  function Swapped(p: GoalPair): GoalPair
  {
    (p.1, p.0)
  }

  /**
   * Four recordings in a row fill the whole buffer: the history is then
   * exactly those four pairs, whatever it held before.
   */
  lemma FourRecordsFillHistory(h: seq<GoalPair>, index: nat, p0: GoalPair, p1: GoalPair, p2: GoalPair, p3: GoalPair)
    requires |h| == HistorySize && index < HistorySize
    ensures var i1, i2, i3 := (index + 1) % 4, (index + 2) % 4, (index + 3) % 4;
      Chronological(h[index := p0][i1 := p1][i2 := p2][i3 := p3], index) == [p0, p1, p2, p3]
  {
  }

  /**
   * The pattern that is reported: each pair is the exchange of the pair two
   * recordings earlier, with two distinct goals in the newest pair.
   */
  lemma SwapPatternCharacterized(history: seq<GoalPair>)
    requires |history| == HistorySize
    ensures SwapPattern(history) <==>
      && history[3] == Swapped(history[1]) && history[2] == Swapped(history[0])
      && history[3].0.Some? && history[3].1.Some? && history[3].0 != history[3].1
  {
  }

  /**
   * Players trading two distinct goals back and forth at every recording
   * are not reported: with period two the newest pair equals the pair two
   * recordings back rather than its exchange.
   */
  lemma PeriodTwoAlternationNotReported(a: Goal, b: Goal)
    requires a != b
    ensures !SwapPattern([(Some(a), Some(b)), (Some(b), Some(a)), (Some(a), Some(b)), (Some(b), Some(a))])
  {
  }

  /** A goal pair held for two recordings, then exchanged for two recordings, is reported. */
  lemma HeldThenExchangedReported(a: Goal, b: Goal)
    requires a != b
    ensures SwapPattern([(Some(a), Some(b)), (Some(a), Some(b)), (Some(b), Some(a)), (Some(b), Some(a))])
  {
  }

  /** A pair in which a goal is missing, or both goals agree, is never part of a swap. */
  lemma NoSwapWithoutTwoGoals(history: seq<GoalPair>)
    requires |history| == HistorySize
    requires history[3].0.None? || history[3].1.None? || history[3].0 == history[3].1
    ensures !SwapPattern(history)
  {
  }

  class PlannerState {
    var playerStates: seq<PlayerPlannerState>
    const goalPairHistory: array<GoalPair>
    var goalPairIndex: nat

    ghost predicate Valid()
      reads this
    {
      goalPairHistory.Length == HistorySize && goalPairIndex < HistorySize
    }

    /** `PlannerState::new`, given the world's player count. */
    constructor (numPlayers: nat)
      ensures Valid() && fresh(goalPairHistory)
      ensures playerStates == seq(numPlayers, i => FreshPlayerState)
      ensures goalPairIndex == 0 && goalPairHistory[..] == seq(HistorySize, i => (None, None))
    {
      playerStates := seq(numPlayers, i => FreshPlayerState);
      goalPairHistory := new GoalPair[HistorySize](i => (None, None));
      goalPairIndex := 0;
    }

    /** The recorded pairs, oldest first. */
    ghost function History(): seq<GoalPair>
      requires Valid()
      reads this, goalPairHistory
    {
      Chronological(goalPairHistory[..], goalPairIndex)
    }

    /** `sync_player_count`: grows the player records to the world's player count, never shrinks them. */
    method SyncPlayerCount(numPlayers: nat)
      modifies this`playerStates
      ensures |playerStates| == if |old(playerStates)| < numPlayers then numPlayers else |old(playerStates)|
      ensures playerStates[..|old(playerStates)|] == old(playerStates)
      ensures forall i :: |old(playerStates)| <= i < |playerStates| ==> playerStates[i] == FreshPlayerState
    {
      while |playerStates| < numPlayers
        invariant |old(playerStates)| <= |playerStates|
        invariant |playerStates| <= if |old(playerStates)| < numPlayers then numPlayers else |old(playerStates)|
        invariant playerStates[..|old(playerStates)|] == old(playerStates)
        invariant forall i :: |old(playerStates)| <= i < |playerStates| ==> playerStates[i] == FreshPlayerState
        decreases numPlayers - |playerStates|
      {
        playerStates := playerStates + [FreshPlayerState];
      }
    }

    /** `record_goal_pair`: overwrites the oldest slot and advances the index. */
    method RecordGoalPair(p1Goal: Option<Goal>, p2Goal: Option<Goal>)
      requires Valid()
      modifies this`goalPairIndex, goalPairHistory
      ensures Valid()
      ensures goalPairHistory[..] == old(goalPairHistory[..])[old(goalPairIndex) := (p1Goal, p2Goal)]
      ensures goalPairIndex == (old(goalPairIndex) + 1) % HistorySize
      ensures History() == old(History())[1..] + [(p1Goal, p2Goal)]
    {
      RecordShifts(goalPairHistory[..], goalPairIndex, (p1Goal, p2Goal));
      goalPairHistory[goalPairIndex] := (p1Goal, p2Goal);
      goalPairIndex := (goalPairIndex + 1) % 4;
    }

    /**
     * `is_goal_swapping`: also returns the four pairs oldest first. The
     * source steps back from the newest slot one index at a time, wrapping
     * from 0 to 3.
     */
    function IsGoalSwapping(): (r: (bool, seq<GoalPair>))
      requires Valid()
      reads this, goalPairHistory
      ensures r.1 == Chronological(goalPairHistory[..], goalPairIndex)
      ensures r.0 <==> SwapPattern(r.1)
    {
      var latest := if goalPairIndex == 0 then 3 else goalPairIndex - 1;
      var t := latest;
      var tMinus1 := if t == 0 then 3 else t - 1;
      var tMinus2 := if tMinus1 == 0 then 3 else tMinus1 - 1;
      var tMinus3 := if tMinus2 == 0 then 3 else tMinus2 - 1;
      var goalsT, goalsT1, goalsT2, goalsT3 :=
        goalPairHistory[t], goalPairHistory[tMinus1], goalPairHistory[tMinus2], goalPairHistory[tMinus3];
      var isSwapping :=
        && goalsT.0 == goalsT2.1 && goalsT.1 == goalsT2.0
        && goalsT1.0 == goalsT3.1 && goalsT1.1 == goalsT3.0
        && goalsT.0.Some? && goalsT.1.Some?
        && goalsT.0 != goalsT.1;
      (isSwapping, [goalsT3, goalsT2, goalsT1, goalsT])
    }
  }
}
