/**
 * Trackers for items the bot has seen (infra/item_tracker.rs): a list of
 * positions, or one list per colour, merged with each tick's sightings,
 * deduplicated and pruned of items that visibly disappeared.
 */
module ItemTrackers {
  import opened Wrappers
  import opened Types
  import opened Swoq

  predicate NoDuplicates<T(==)>(s: seq<T>)
  {
    forall i, j :: 0 <= i < j < |s| ==> s[i] != s[j]
  }

  /** The positions of `s` in the order of their first occurrence. */
  function Dedup(s: seq<Position>): seq<Position>
  {
    if s == [] then []
    else
      var d := Dedup(s[..|s| - 1]);
      if s[|s| - 1] in d then d else d + [s[|s| - 1]]
  }

  /** Deduplication keeps every position exactly once, and nothing else. */
  lemma {:induction false} DedupSpec(s: seq<Position>)
    ensures NoDuplicates(Dedup(s))
    ensures forall p :: p in Dedup(s) <==> p in s
    ensures |Dedup(s)| <= |s|
  {
    if s != [] {
      var init := s[..|s| - 1];
      DedupSpec(init);
      assert s == init + [s[|s| - 1]];
      forall p ensures p in s <==> p in init || p == s[|s| - 1] {
      }
    }
  }

  /** Deduplicating a list that has no duplicates changes nothing. */
  lemma {:induction false} DedupIdempotent(s: seq<Position>)
    requires NoDuplicates(s)
    ensures Dedup(s) == s
  {
    if s != [] {
      var init := s[..|s| - 1];
      DedupIdempotent(init);
      assert init + [s[|s| - 1]] == s;
    }
  }

  /** The manual deduplication loop of `update`. */
  method DedupPositions(s: seq<Position>) returns (unique: seq<Position>)
    ensures unique == Dedup(s)
  {
    unique := [];
    for i := 0 to |s|
      invariant unique == Dedup(s[..i])
    {
      assert s[..i + 1][..i] == s[..i];
      if s[i] !in unique {
        unique := unique + [s[i]];
      }
    }
    assert s[..|s|] == s;
  }

  /** `Vec::retain`: the elements satisfying `keep`, in their original order. */
  function Retain(s: seq<Position>, keep: Position -> bool): seq<Position>
  {
    if s == [] then []
    else if keep(s[|s| - 1]) then Retain(s[..|s| - 1], keep) + [s[|s| - 1]]
    else Retain(s[..|s| - 1], keep)
  }

  lemma {:induction false} RetainSpec(s: seq<Position>, keep: Position -> bool)
    ensures forall p :: p in Retain(s, keep) <==> p in s && keep(p)
    ensures NoDuplicates(s) ==> NoDuplicates(Retain(s, keep))
  {
    if s != [] {
      var init := s[..|s| - 1];
      RetainSpec(init, keep);
      assert s == init + [s[|s| - 1]];
      forall p ensures p in s <==> p in init || p == s[|s| - 1] {
      }
      if NoDuplicates(s) {
        assert NoDuplicates(init);
      }
    }
  }

  /** Some player's visibility square contains `p`. */
  predicate Visible(p: Position, bounds: seq<Bounds>)
  {
    exists b :: b in bounds && b.Contains(p)
  }

  /**
   * The retain test of `update`: an item is dropped only when it is visible,
   * its tile is known, and the validator rejects that tile.
   */
  predicate StillThere(p: Position, tiles: map<Position, Tile>, bounds: seq<Bounds>, valid: (Tile, Position) -> bool)
  {
    Visible(p, bounds) && p in tiles ==> valid(tiles[p], p)
  }

  /** A tile-only validator seen as one that also receives the position. */
  function Lift(validator: Tile -> bool): (Tile, Position) -> bool
  {
    (t, p) => validator(t)
  }

  /** The tracked list after one `update`. */
  function Updated(positions: seq<Position>, seen: seq<Position>, tiles: map<Position, Tile>,
                   bounds: seq<Bounds>, valid: (Tile, Position) -> bool): seq<Position>
  {
    Retain(Dedup(positions + seen), p => StillThere(p, tiles, bounds, valid))
  }

  /**
   * What `update` does to membership: a position is tracked afterwards iff it
   * was tracked or seen and is still there; the result has no duplicates.
   */
  lemma UpdatedSpec(positions: seq<Position>, seen: seq<Position>, tiles: map<Position, Tile>,
                    bounds: seq<Bounds>, valid: (Tile, Position) -> bool)
    ensures NoDuplicates(Updated(positions, seen, tiles, bounds, valid))
    ensures forall p :: p in Updated(positions, seen, tiles, bounds, valid)
                        <==> (p in positions || p in seen) && StillThere(p, tiles, bounds, valid)
  {
    var keep := p => StillThere(p, tiles, bounds, valid);
    DedupSpec(positions + seen);
    RetainSpec(Dedup(positions + seen), keep);
  }

  lemma {:induction false} RetainExt(s: seq<Position>, keep1: Position -> bool, keep2: Position -> bool)
    requires forall p :: keep1(p) == keep2(p)
    ensures Retain(s, keep1) == Retain(s, keep2)
  {
    if s != [] {
      RetainExt(s[..|s| - 1], keep1, keep2);
    }
  }

  /** `Updated` depends on the validator's values only. */
  lemma UpdatedExt(positions: seq<Position>, seen: seq<Position>, tiles: map<Position, Tile>,
                   bounds: seq<Bounds>, valid1: (Tile, Position) -> bool, valid2: (Tile, Position) -> bool)
    requires forall t, p :: valid1(t, p) == valid2(t, p)
    ensures Updated(positions, seen, tiles, bounds, valid1) == Updated(positions, seen, tiles, bounds, valid2)
  {
    RetainExt(Dedup(positions + seen), p => StillThere(p, tiles, bounds, valid1), p => StillThere(p, tiles, bounds, valid2));
  }

  /** An item out of every visibility square, or on a never-seen cell, is retained. */
  lemma UpdatedRetainsUnseen(positions: seq<Position>, seen: seq<Position>, tiles: map<Position, Tile>,
                             bounds: seq<Bounds>, valid: (Tile, Position) -> bool, p: Position)
    requires p in positions || p in seen
    requires !Visible(p, bounds) || p !in tiles
    ensures p in Updated(positions, seen, tiles, bounds, valid)
  {
    UpdatedSpec(positions, seen, tiles, bounds, valid);
  }

  /** A visible item whose known tile fails the validator is removed. */
  lemma UpdatedRemovesInvalid(positions: seq<Position>, seen: seq<Position>, tiles: map<Position, Tile>,
                              bounds: seq<Bounds>, valid: (Tile, Position) -> bool, p: Position)
    requires Visible(p, bounds) && p in tiles && !valid(tiles[p], p)
    ensures p !in Updated(positions, seen, tiles, bounds, valid)
  {
    UpdatedSpec(positions, seen, tiles, bounds, valid);
  }

  /** An update that sees nothing new and removes nothing leaves a duplicate-free list unchanged. */
  lemma UpdatedStable(positions: seq<Position>, tiles: map<Position, Tile>,
                      bounds: seq<Bounds>, valid: (Tile, Position) -> bool)
    requires NoDuplicates(positions)
    requires forall p :: p in positions ==> StillThere(p, tiles, bounds, valid)
    ensures Updated(positions, [], tiles, bounds, valid) == positions
  {
    assert positions + [] == positions;
    DedupIdempotent(positions);
    RetainAll(positions, p => StillThere(p, tiles, bounds, valid));
  }

  lemma {:induction false} RetainAll(s: seq<Position>, keep: Position -> bool)
    requires forall p :: p in s ==> keep(p)
    ensures Retain(s, keep) == s
  {
    if s != [] {
      RetainAll(s[..|s| - 1], keep);
      assert s[..|s| - 1] + [s[|s| - 1]] == s;
    }
  }

  /** The index of the first position of minimal distance to `reference` (`min_by_key` keeps the first). */
  function FirstClosestIndex(s: seq<Position>, reference: Position): (k: nat)
    requires |s| > 0
    ensures k < |s|
    ensures forall j :: 0 <= j < |s| ==> Distance(reference, s[k]) <= Distance(reference, s[j])
    ensures forall j :: 0 <= j < k ==> Distance(reference, s[j]) > Distance(reference, s[k])
  {
    if |s| == 1 then 0
    else
      var k := FirstClosestIndex(s[..|s| - 1], reference);
      if Distance(reference, s[|s| - 1]) < Distance(reference, s[k]) then |s| - 1 else k
  }

  /** `closest_to` on a list of positions. */
  function ClosestIn(s: seq<Position>, reference: Position): (r: Option<Position>)
    ensures r.None? <==> |s| == 0
    ensures r.Some? ==> r.value in s && forall q :: q in s ==> Distance(reference, r.value) <= Distance(reference, q)
  {
    if |s| == 0 then None else Some(s[FirstClosestIndex(s, reference)])
  }

  /** An uncoloured tracker (enemies, swords, health potions). */
  class ItemTracker {
    var positions: seq<Position>

    constructor ()
      ensures positions == []
    {
      positions := [];
    }

    /**
     * `update`: appends the sightings, removes duplicates keeping first
     * occurrences, then drops visible items whose tile fails `validator`.
     */
    method Update(seenItems: seq<Position>, tiles: map<Position, Tile>, validator: Tile -> bool, bounds: seq<Bounds>)
      modifies this
      ensures positions == Updated(old(positions), seenItems, tiles, bounds, Lift(validator))
    {
      positions := positions + seenItems;
      var unique := DedupPositions(positions);
      positions := unique;
      positions := Retain(positions, p => StillThere(p, tiles, bounds, Lift(validator)));
    }

    function GetPositions(): seq<Position>
      reads this
    {
      positions
    }

    function ClosestTo(reference: Position): (r: Option<Position>)
      reads this
      ensures r.None? <==> IsEmpty()
      ensures r.Some? ==> r.value in positions
      ensures r.Some? ==> forall q :: q in positions ==> Distance(reference, r.value) <= Distance(reference, q)
    {
      ClosestIn(positions, reference)
    }

    function IsEmpty(): bool
      reads this
    {
      |positions| == 0
    }

    /** `clear` (the world-state copy of this tracker, src/item_tracker.rs). */
    method Clear()
      modifies this
      ensures positions == []
    {
      positions := [];
    }
  }

  /** The list under `c`, or the empty list when there is no entry (`entry(c).or_default()`). */
  function OrEmpty(m: map<Color, seq<Position>>, c: Color): seq<Position>
  {
    if c in m then m[c] else []
  }

  /** A tracker with one list per colour (keys, doors, pressure plates). */
  class ColoredItemTracker {
    var positions: map<Color, seq<Position>>

    constructor ()
      ensures positions == map[]
    {
      positions := map[];
    }

    /** `update`: `UpdateWithPositions` with a validator that looks at the tile only. */
    method Update(seenItems: map<Color, seq<Position>>, tiles: map<Position, Tile>, validator: Tile -> bool,
                  bounds: seq<Bounds>)
      modifies this
      ensures positions.Keys == old(positions).Keys + seenItems.Keys
      ensures forall c :: c in positions ==>
        positions[c] == Updated(OrEmpty(old(positions), c), OrEmpty(seenItems, c), tiles, bounds, Lift(validator))
    {
      UpdateWithPositions(seenItems, tiles, (t, p, c) => validator(t), bounds);
      forall c | c in positions
        ensures positions[c] == Updated(OrEmpty(old(positions), c), OrEmpty(seenItems, c), tiles, bounds,
                                        Lift(validator))
      {
        UpdatedExt(OrEmpty(old(positions), c), OrEmpty(seenItems, c), tiles, bounds,
                   (t, p) => ((t, p, c) => validator(t))(t, p, c), Lift(validator));
      }
    }

    /**
     * `update_with_positions`: every colour that has sightings gets an entry;
     * each colour's list is merged, deduplicated and pruned on its own.
     * The source walks the hash map in its own order; colours are
     * independent, so the fixed order Red, Green, Blue gives the same result.
     */
    method UpdateWithPositions(seenItems: map<Color, seq<Position>>, tiles: map<Position, Tile>,
                               validator: (Tile, Position, Color) -> bool, bounds: seq<Bounds>)
      modifies this
      ensures positions.Keys == old(positions).Keys + seenItems.Keys
      ensures forall c :: c in positions ==>
        positions[c] == Updated(OrEmpty(old(positions), c), OrEmpty(seenItems, c), tiles, bounds,
                                (t, p) => validator(t, p, c))
    {
      MergeSightings(seenItems);
      ghost var merged := positions;
      PruneAll(tiles, validator, bounds);
      forall c | c in positions
        ensures positions[c] == Updated(OrEmpty(old(positions), c), OrEmpty(seenItems, c), tiles, bounds,
                                        (t, p) => validator(t, p, c))
      {
        assert merged[c] + [] == OrEmpty(old(positions), c) + OrEmpty(seenItems, c);
      }
    }

    /** First loop of `update_with_positions`: append each colour's sightings to its list, in any order. */
    method MergeSightings(seenItems: map<Color, seq<Position>>)
      modifies this
      ensures positions.Keys == old(positions).Keys + seenItems.Keys
      ensures forall c :: c in positions ==> positions[c] == OrEmpty(old(positions), c) + OrEmpty(seenItems, c)
    {
      var remaining := seenItems.Keys;
      while remaining != {}
        invariant remaining <= seenItems.Keys
        invariant positions.Keys == old(positions).Keys + (seenItems.Keys - remaining)
        invariant forall c :: c in positions ==>
          positions[c] == OrEmpty(old(positions), c) + (if c in remaining then [] else OrEmpty(seenItems, c))
        decreases remaining
      {
        var c :| c in remaining;
        positions := positions[c := OrEmpty(positions, c) + seenItems[c]];
        remaining := remaining - {c};
      }
    }

    /** Second loop of `update_with_positions`: deduplicate and prune every colour's list, in any order. */
    method PruneAll(tiles: map<Position, Tile>, validator: (Tile, Position, Color) -> bool, bounds: seq<Bounds>)
      modifies this
      ensures positions.Keys == old(positions).Keys
      ensures forall c :: c in positions ==>
        positions[c] == Updated(old(positions)[c], [], tiles, bounds, (t, p) => validator(t, p, c))
    {
      var remaining := positions.Keys;
      while remaining != {}
        invariant remaining <= positions.Keys == old(positions).Keys
        invariant forall c :: c in positions ==>
          positions[c] == if c in remaining then old(positions)[c]
                          else Updated(old(positions)[c], [], tiles, bounds, (t, p) => validator(t, p, c))
        decreases remaining
      {
        var c :| c in remaining;
        var unique := DedupPositions(positions[c]);
        assert positions[c] + [] == positions[c];
        positions := positions[c := Retain(unique, p => StillThere(p, tiles, bounds, (t, q) => validator(t, q, c)))];
        remaining := remaining - {c};
      }
    }

    function GetPositions(c: Color): (r: Option<seq<Position>>)
      reads this
      ensures r.Some? <==> c in positions
    {
      if c in positions then Some(positions[c]) else None
    }

    /** `has_color`: a list exists for `c` and is not empty. */
    function HasColor(c: Color): bool
      reads this
    {
      c in positions && |positions[c]| > 0
    }

    function ClosestTo(c: Color, reference: Position): (r: Option<Position>)
      reads this
      ensures r.Some? ==> c in positions && r.value in positions[c]
      ensures r.Some? ==> forall q :: q in positions[c] ==> Distance(reference, r.value) <= Distance(reference, q)
    {
      if c in positions then ClosestIn(positions[c], reference) else None
    }

    function Colors(): set<Color>
      reads this
    {
      positions.Keys
    }

    /** `clear` (the world-state copy of this tracker, src/item_tracker.rs). */
    method Clear()
      modifies this
      ensures positions == map[]
    {
      positions := map[];
    }
  }

  /** A colour is known exactly when some closest item of that colour exists, from any reference point. */
  lemma HasColorIffClosest(t: ColoredItemTracker, c: Color, reference: Position)
    ensures t.HasColor(c) <==> t.ClosestTo(c, reference).Some?
  {
  }
}
