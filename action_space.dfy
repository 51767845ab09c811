/**
 * The per-player action space of the learning planner
 * (planners/rl/action_space.rs): up to 128 action slots, a validity mask
 * and a count of valid slots. Generation packs the generated actions into
 * the first slots; taking an action empties its slot and clears its bit.
 */
module ActionSpaces {
  import opened Wrappers
  import opened Types

  /** `MAX_ACTIONS`. */
  const MaxActions: nat := 128

  /** `ActionType::COUNT`: the number of action kinds. */
  const ActionTypeCount: nat := 16

  /** An action as the space sees it: its kind's index and its target, if any. */
  datatype RLAction = RLAction(actionTypeIndex: nat, target: Option<Position>)

  /** `ActionEncoder::action_feature_size`: a one-hot kind plus x, y and a has-target flag. */
  function ActionFeatureSize(): (r: nat)
    ensures r == ActionTypeCount + 3 && r == 19
  {
    ActionTypeCount + 3
  }

  /** `usize::saturating_sub`: the difference, or zero when it would go below zero. */
  function SaturatingSub(a: nat, b: nat): (r: nat)
    ensures a >= b ==> r + b == a
    ensures a < b ==> r == 0
  {
    if a >= b then a - b else 0
  }

  /** The number of set bits. */
  function CountTrue(s: seq<bool>): (r: nat)
    ensures r <= |s|
  {
    if s == [] then 0 else (if s[|s| - 1] then 1 else 0) + CountTrue(s[..|s| - 1])
  }

  /** Some bit is set exactly when the count is positive. */
  lemma {:induction false} CountTruePositive(s: seq<bool>)
    ensures CountTrue(s) > 0 <==> exists i :: 0 <= i < |s| && s[i]
  {
    if s != [] {
      var init := s[..|s| - 1];
      CountTruePositive(init);
      if exists i :: 0 <= i < |init| && init[i] {
        var i :| 0 <= i < |init| && init[i];
        assert s[i];
      }
      if exists i :: 0 <= i < |s| && s[i] {
        var i :| 0 <= i < |s| && s[i];
        if i < |init| {
          assert init[i];
        }
      }
    }
  }

  /** Clearing a set bit lowers the count by one. */
  lemma {:induction false} CountTrueClear(s: seq<bool>, k: nat)
    requires k < |s| && s[k]
    ensures CountTrue(s[k := false]) == CountTrue(s) - 1
  {
    var t := s[k := false];
    if k == |s| - 1 {
      assert t[..|t| - 1] == s[..|s| - 1];
    } else {
      assert t[..|t| - 1] == s[..|s| - 1][k := false];
      CountTrueClear(s[..|s| - 1], k);
    }
  }

  /** A mask whose first `n` bits are set and the rest clear counts `n`. */
  lemma {:induction false} CountTruePrefix(s: seq<bool>, n: nat)
    requires n <= |s|
    requires forall i :: 0 <= i < |s| ==> (s[i] <==> i < n)
    ensures CountTrue(s) == n
  {
    if s != [] {
      var init := s[..|s| - 1];
      if n == |s| {
        CountTruePrefix(init, n - 1);
      } else {
        CountTruePrefix(init, n);
      }
    }
  }

  class ActionSpace {
    const actions: array<Option<RLAction>>
    const mask: array<bool>
    var numValid: nat

    /**
     * Both vectors have `MaxActions` slots, a valid slot holds an action,
     * and `numValid` counts the valid slots.
     */
    ghost predicate Valid()
      reads this, actions, mask
    {
      && actions.Length == MaxActions && mask.Length == MaxActions
      && (forall i :: 0 <= i < MaxActions && mask[i] ==> actions[i].Some?)
      && numValid == CountTrue(mask[..])
    }

    /**
     * `ActionSpace::generate`, given the actions the generators produced
     * in kind order: the first 128 are packed into the leading slots and
     * marked valid; surplus actions are dropped and the rest of the slots
     * are empty.
     */
    constructor Generate(generated: seq<RLAction>)
      ensures Valid() && fresh(actions) && fresh(mask)
      ensures numValid == if |generated| < MaxActions then |generated| else MaxActions
      ensures forall i :: 0 <= i < MaxActions ==> (mask[i] <==> i < numValid)
      ensures forall i :: 0 <= i < MaxActions ==>
        actions[i] == if i < numValid then Some(generated[i]) else None
    {
      var acts: seq<Option<RLAction>> := [];
      var bits := new bool[MaxActions](i => false);
      var count: nat := 0;
      for j := 0 to |generated|
        invariant count == |acts| && count <= MaxActions
        invariant count == if j < MaxActions then j else MaxActions
        invariant forall i :: 0 <= i < count ==> acts[i] == Some(generated[i])
        invariant forall i :: 0 <= i < MaxActions ==> (bits[i] <==> i < count)
      {
        if count < MaxActions {
          acts := acts + [Some(generated[j])];
          bits[count] := true;
          count := count + 1;
        }
      }
      while |acts| < MaxActions
        invariant count <= |acts| <= MaxActions
        invariant forall i :: 0 <= i < count ==> acts[i] == Some(generated[i])
        invariant forall i :: count <= i < |acts| ==> acts[i] == None
        decreases MaxActions - |acts|
      {
        acts := acts + [None];
      }
      CountTruePrefix(bits[..], count);
      actions := new Option<RLAction>[MaxActions](i requires 0 <= i < MaxActions reads {} => acts[i]);
      mask := bits;
      numValid := count;
    }

    /** `mask_as_floats`: one number per slot, 1 where the slot is valid and 0 elsewhere. */
    function MaskAsFloats(): (r: seq<real>)
      reads this, mask
      ensures |r| == mask.Length
      ensures forall i :: 0 <= i < |r| ==> (r[i] == 1.0 <==> mask[i]) && (r[i] == 0.0 <==> !mask[i])
    {
      seq(mask.Length, i reads mask requires 0 <= i < mask.Length => if mask[i] then 1.0 else 0.0)
    }

    /** `has_actions`: some slot is valid. */
    function HasActions(): (r: bool)
      requires Valid()
      reads this, actions, mask
      ensures r <==> exists i :: 0 <= i < MaxActions && mask[i]
    {
      CountTruePositive(mask[..]);
      assert forall i :: 0 <= i < MaxActions ==> mask[..][i] == mask[i];
      numValid > 0
    }

    /**
     * `get_action`: the action in a valid slot, and None for an index past
     * the last slot or a masked one. `clone_action` returns the same value.
     */
    function GetAction(index: nat): (r: Option<RLAction>)
      requires Valid()
      reads this, actions, mask
      ensures r.Some? <==> index < MaxActions && mask[index]
      ensures r.Some? ==> actions[index] == r
    {
      if index < MaxActions && mask[index] then actions[index] else None
    }

    /**
     * `take_action`: moves the action out of a valid slot, clears its bit
     * and decrements the count (saturating at zero, which the count
     * invariant shows never happens); any other index changes nothing.
     * A second take at the same index therefore yields None.
     */
    method TakeAction(index: nat) returns (r: Option<RLAction>)
      requires Valid()
      modifies this`numValid, mask, actions
      ensures Valid()
      ensures index < MaxActions ==> !mask[index]
      ensures if index < MaxActions && old(mask[index]) then
          && r == old(actions[index]) && r.Some?
          && mask[..] == old(mask[..])[index := false]
          && actions[..] == old(actions[..])[index := None]
          && numValid == old(numValid) - 1
        else
          && r.None?
          && mask[..] == old(mask[..]) && actions[..] == old(actions[..])
          && numValid == old(numValid)
    {
      if index < MaxActions && mask[index] {
        CountTrueClear(mask[..], index);
        assert mask[..][index := false][index] == false;
        mask[index] := false;
        numValid := SaturatingSub(numValid, 1);
        r := actions[index];
        actions[index] := None;
      } else {
        r := None;
      }
    }
  }
}
