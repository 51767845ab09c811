/**
 * The bot's picture of the level (world_state.rs): the tile map merged
 * from each tick's surroundings under fog-of-war rules, the item trackers
 * fed from the same scan, and the walkability and key queries the path
 * search asks.
 */
module WorldStates {
  import opened Wrappers
  import opened Types
  import opened Swoq
  import opened ItemTrackers
  import opened BoulderTrackers
  import opened Goals

  // ---------------------------------------------------------------------
  // Fog of war
  // ---------------------------------------------------------------------

  /**
   * Whether an observed tile replaces what the map holds at its cell:
   * concrete observations always do; Unknown replaces only nothing, Unknown
   * or the player's old cell.
   */
  function ShouldUpdate(known: Option<Tile>, seen: Tile): (r: bool)
    ensures seen != Unknown ==> r
    ensures known.None? ==> r
    ensures seen == Unknown && known.Some? ==> (r <==> known.value == Unknown || known.value == Player)
  {
    match (known, seen)
    case (Some(Wall), Unknown) => false
    case (Some(Empty), Unknown) => false
    case (Some(Unknown), Unknown) => true
    case (Some(Player), Unknown) => true
    case (Some(_), Unknown) => false
    case _ => true
  }

  /** The first step of `integrate_surroundings`: forget Unknown tiles outside the current square. */
  function FogRetain(tiles: map<Position, Tile>, bounds: Bounds): (r: map<Position, Tile>)
    ensures forall p :: p in r <==> p in tiles && (tiles[p] == Unknown ==> bounds.Contains(p))
    ensures forall p :: p in r ==> r[p] == tiles[p]
  {
    map p | p in tiles && (tiles[p] == Unknown ==> bounds.Contains(p)) :: tiles[p]
  }

  /** Only Unknown tiles are forgotten; every other tile persists. */
  lemma FogRetainKeepsKnown(tiles: map<Position, Tile>, bounds: Bounds, p: Position)
    requires p in tiles && tiles[p] != Unknown
    ensures TileAt(FogRetain(tiles, bounds), p) == Some(tiles[p])
  {
  }

  // ---------------------------------------------------------------------
  // The surroundings grid
  // ---------------------------------------------------------------------

  /** Side of the square the surroundings describe. */
  function GridSize(range: nat): nat
  {
    2 * range + 1
  }

  /** The cell described by surroundings index `idx` (row-major, centred on `center`). */
  function SurroundingsPos(center: Position, range: nat, idx: nat): Position
  {
    Position(center.x + idx % GridSize(range) - range, center.y + idx / GridSize(range) - range)
  }

  /** The inverse of `SurroundingsPos`: the index describing `p`, if any. */
  function SurroundingsIndex(center: Position, range: nat, p: Position): Option<nat>
  {
    var col := p.x - center.x + range;
    var row := p.y - center.y + range;
    if 0 <= col < GridSize(range) && 0 <= row then Some(row * GridSize(range) + col) else None
  }

  lemma MulMonotone(a: int, b: int, n: nat)
    requires a <= b
    ensures a * n <= b * n
  {
    assert b * n == a * n + (b - a) * n;
  }

  lemma DivModUnique(q: nat, r: nat, n: nat)
    requires r < n
    ensures (q * n + r) / n == q && (q * n + r) % n == r
  {
    var m := q * n + r;
    var d := m / n;
    assert m == d * n + m % n;
    if d > q {
      MulMonotone(q + 1, d, n);
      assert false;
    } else if d < q {
      MulMonotone(d + 1, q, n);
      assert false;
    }
  }

  /** Index to cell and back is the identity ... */
  lemma IndexRoundTrip(center: Position, range: nat, idx: nat)
    ensures SurroundingsIndex(center, range, SurroundingsPos(center, range, idx)) == Some(idx)
  {
    var n := GridSize(range);
    assert idx == (idx / n) * n + idx % n;
  }

  /** ... and so is cell to index and back, so distinct indices describe distinct cells. */
  lemma PosRoundTrip(center: Position, range: nat, p: Position)
    requires SurroundingsIndex(center, range, p).Some?
    ensures SurroundingsPos(center, range, SurroundingsIndex(center, range, p).value) == p
  {
    var n := GridSize(range);
    DivModUnique(p.y - center.y + range, p.x - center.x + range, n);
  }

  /** A number below `n * n` has a quotient and a remainder by `n` below `n`. */
  lemma DivBelow(a: nat, n: nat)
    requires 0 < n && a < n * n
    ensures 0 <= a / n < n && 0 <= a % n < n
  {
    if a / n >= n {
      MulMonotone(n, a / n, n);
    }
  }

  /** A full surroundings square lies inside the visibility bounds. */
  lemma SurroundingsInBounds(center: Position, range: nat, idx: nat)
    requires idx < GridSize(range) * GridSize(range)
    ensures FromCenterAndRange(center, range).Contains(SurroundingsPos(center, range, idx))
  {
    var n := GridSize(range);
    DivBelow(idx, n);
    var row, col := idx / n, idx % n;
    assert SurroundingsPos(center, range, idx) == Position(center.x + col - range, center.y + row - range);
  }

  predicate InMap(p: Position, width: int, height: int)
  {
    0 <= p.x < width && 0 <= p.y < height
  }

  /** The decoded tile at index `idx`, or None when the cell is off the map or the code did not decode. */
  function ObservationAt(surroundings: seq<Option<Tile>>, center: Position, range: nat, width: int, height: int,
                         idx: nat): (r: Option<Tile>)
    requires idx < |surroundings|
    ensures r.Some? ==> InMap(SurroundingsPos(center, range, idx), width, height) && surroundings[idx] == r
  {
    if InMap(SurroundingsPos(center, range, idx), width, height) then surroundings[idx] else None
  }

  // ---------------------------------------------------------------------
  // The scan over the surroundings
  // ---------------------------------------------------------------------

  /** Which tracker a tile feeds, if any. */
  datatype Sighting = KeySeen(Color) | DoorSeen(Color) | PlateSeen(Color)
                    | EnemySeen | BoulderSeen | SwordSeen | HealthSeen

  function SightingOf(t: Tile): Option<Sighting>
  {
    match t
    case Key(c) => Some(KeySeen(c))
    case Door(c) => Some(DoorSeen(c))
    case PressurePlate(c) => Some(PlateSeen(c))
    case Enemy => Some(EnemySeen)
    case Boulder => Some(BoulderSeen)
    case Sword => Some(SwordSeen)
    case Health => Some(HealthSeen)
    case _ => None
  }

  /** The sightings collected during one scan, in scan order. */
  datatype Seen = Seen(keys: map<Color, seq<Position>>, doors: map<Color, seq<Position>>,
                       plates: map<Color, seq<Position>>, enemies: seq<Position>,
                       boulders: seq<Position>, swords: seq<Position>, health: seq<Position>)

  const NothingSeen := Seen(map[], map[], map[], [], [], [], [])

  /** `entry(c).or_default().push(p)`. */
  function Push(m: map<Color, seq<Position>>, c: Color, p: Position): map<Color, seq<Position>>
  {
    m[c := OrEmpty(m, c) + [p]]
  }

  function Record(seen: Seen, t: Tile, p: Position): Seen
  {
    match SightingOf(t)
    case None => seen
    case Some(KeySeen(c)) => seen.(keys := Push(seen.keys, c, p))
    case Some(DoorSeen(c)) => seen.(doors := Push(seen.doors, c, p))
    case Some(PlateSeen(c)) => seen.(plates := Push(seen.plates, c, p))
    case Some(EnemySeen) => seen.(enemies := seen.enemies + [p])
    case Some(BoulderSeen) => seen.(boulders := seen.boulders + [p])
    case Some(SwordSeen) => seen.(swords := seen.swords + [p])
    case Some(HealthSeen) => seen.(health := seen.health + [p])
  }

  /** The part of the world state the scan loop changes. */
  datatype ScanState = ScanState(tiles: map<Position, Tile>, boulders: map<Position, TrackedBoulder>,
                                 exitPos: Option<Position>, bossPos: Option<Position>,
                                 treasurePos: Option<Position>, seen: Seen)

  /**
   * `check_dropped_boulder`'s flag: a boulder appearing next to the player on
   * a cell last seen as Empty, Player or a pressure plate was dropped there.
   */
  function DroppedFlag(known: Option<Tile>): bool
  {
    match known
    case Some(Empty) => true
    case Some(Player) => true
    case Some(PressurePlate(_)) => true
    case _ => false
  }

  /** One iteration of the scan, for a decoded tile `t` on the in-map cell `p`. */
  function ScanStep(st: ScanState, p: Position, t: Tile, playerPos: Position): ScanState
  {
    var boulders :=
      if t == Boulder && IsAdjacent(playerPos, p) && p !in st.boulders
      then st.boulders[p := TrackedBoulder(p, DroppedFlag(TileAt(st.tiles, p)))]
      else st.boulders;
    var tiles := if ShouldUpdate(TileAt(st.tiles, p), t) then st.tiles[p := t] else st.tiles;
    ScanState(tiles, boulders,
              if t == Exit then Some(p) else st.exitPos,
              if t == Boss then Some(p) else st.bossPos,
              if t == Treasure then Some(p) else st.treasurePos,
              Record(st.seen, t, p))
  }

  /** The state after the scan has handled the indices below `n`. */
  function Scan(init: ScanState, surroundings: seq<Option<Tile>>, center: Position, range: nat,
                width: int, height: int, playerPos: Position, n: nat): ScanState
    requires n <= |surroundings|
  {
    if n == 0 then init
    else
      var st := Scan(init, surroundings, center, range, width, height, playerPos, n - 1);
      match ObservationAt(surroundings, center, range, width, height, n - 1)
      case None => st
      case Some(t) => ScanStep(st, SurroundingsPos(center, range, n - 1), t, playerPos)
  }

  /** The tile the scan leaves at `p`: the observation for `p` if it overrides the old tile. */
  function ScannedTile(tiles: map<Position, Tile>, surroundings: seq<Option<Tile>>, center: Position,
                       range: nat, width: int, height: int, n: nat, p: Position): Option<Tile>
    requires n <= |surroundings|
  {
    match SurroundingsIndex(center, range, p)
    case Some(j) =>
      if j < n then
        match ObservationAt(surroundings, center, range, width, height, j)
        case Some(t) => if ShouldUpdate(TileAt(tiles, p), t) then Some(t) else TileAt(tiles, p)
        case None => TileAt(tiles, p)
      else TileAt(tiles, p)
    case None => TileAt(tiles, p)
  }

  /**
   * Each cell is described by one index only, so the scan's map is the old
   * map overridden cell by cell: the order of the scan does not matter.
   */
  lemma {:induction false} ScanTiles(init: ScanState, surroundings: seq<Option<Tile>>, center: Position,
                                     range: nat, width: int, height: int, playerPos: Position, n: nat, p: Position)
    requires n <= |surroundings|
    ensures TileAt(Scan(init, surroundings, center, range, width, height, playerPos, n).tiles, p)
         == ScannedTile(init.tiles, surroundings, center, range, width, height, n, p)
  {
    if n > 0 {
      var q := SurroundingsPos(center, range, n - 1);
      ScanTilesStep(init, surroundings, center, range, width, height, playerPos, n);
      ScannedTileStep(init.tiles, surroundings, center, range, width, height, n, p);
      ScanTiles(init, surroundings, center, range, width, height, playerPos, n - 1, p);
      IndexRoundTrip(center, range, n - 1);
      if SurroundingsIndex(center, range, p) == Some(n - 1) {
        PosRoundTrip(center, range, p);
      }
    }
  }

  /** The overriding tile for `p` after one more index changes only for the cell that index describes. */
  lemma ScannedTileStep(tiles: map<Position, Tile>, surroundings: seq<Option<Tile>>, center: Position,
                        range: nat, width: int, height: int, n: nat, p: Position)
    requires 0 < n <= |surroundings|
    ensures ScannedTile(tiles, surroundings, center, range, width, height, n, p)
         == if SurroundingsIndex(center, range, p) == Some(n - 1) then
              match ObservationAt(surroundings, center, range, width, height, n - 1)
              case Some(t) => if ShouldUpdate(TileAt(tiles, p), t) then Some(t) else TileAt(tiles, p)
              case None => TileAt(tiles, p)
            else ScannedTile(tiles, surroundings, center, range, width, height, n - 1, p)
  {
  }

  /** The map after one more index: the previous map with that index's observation applied. */
  lemma ScanTilesStep(init: ScanState, surroundings: seq<Option<Tile>>, center: Position,
                      range: nat, width: int, height: int, playerPos: Position, n: nat)
    requires 0 < n <= |surroundings|
    ensures var prev := Scan(init, surroundings, center, range, width, height, playerPos, n - 1).tiles;
            var tiles := Scan(init, surroundings, center, range, width, height, playerPos, n).tiles;
            var q := SurroundingsPos(center, range, n - 1);
            match ObservationAt(surroundings, center, range, width, height, n - 1)
            case None => tiles == prev
            case Some(t) => tiles == if ShouldUpdate(TileAt(prev, q), t) then prev[q := t] else prev
  {
  }

  /** Cells off the map are never written. */
  lemma ScanSkipsOffMap(init: ScanState, surroundings: seq<Option<Tile>>, center: Position, range: nat,
                        width: int, height: int, playerPos: Position, p: Position)
    requires !InMap(p, width, height)
    ensures TileAt(Scan(init, surroundings, center, range, width, height, playerPos, |surroundings|).tiles, p)
         == TileAt(init.tiles, p)
  {
    ScanTiles(init, surroundings, center, range, width, height, playerPos, |surroundings|, p);
    if SurroundingsIndex(center, range, p).Some? {
      PosRoundTrip(center, range, p);
    }
  }

  /** A concrete observation at index `idx` lands on the cell `SurroundingsPos(idx)`. */
  lemma ScanWritesObservation(init: ScanState, surroundings: seq<Option<Tile>>, center: Position, range: nat,
                              width: int, height: int, playerPos: Position, idx: nat)
    requires idx < |surroundings|
    requires InMap(SurroundingsPos(center, range, idx), width, height)
    requires surroundings[idx].Some? && surroundings[idx].value != Unknown
    ensures TileAt(Scan(init, surroundings, center, range, width, height, playerPos, |surroundings|).tiles,
                   SurroundingsPos(center, range, idx)) == surroundings[idx]
  {
    ScanTiles(init, surroundings, center, range, width, height, playerPos, |surroundings|,
              SurroundingsPos(center, range, idx));
    IndexRoundTrip(center, range, idx);
  }

  /** Fog of war: after the scan, a known tile is Unknown only if it was Unknown or the player before. */
  lemma ScanKeepsKnown(init: ScanState, surroundings: seq<Option<Tile>>, center: Position, range: nat,
                       width: int, height: int, playerPos: Position, p: Position)
    requires p in init.tiles && init.tiles[p] != Unknown && init.tiles[p] != Player
    ensures var after := TileAt(Scan(init, surroundings, center, range, width, height, playerPos, |surroundings|).tiles, p);
            after.Some? && after.value != Unknown
  {
    ScanTiles(init, surroundings, center, range, width, height, playerPos, |surroundings|, p);
  }

  /** The in-map cells observed as `t` among the indices below `n`, in index order. */
  function Observed(surroundings: seq<Option<Tile>>, center: Position, range: nat, width: int, height: int,
                    n: nat, t: Tile): (r: seq<Position>)
    requires n <= |surroundings|
    ensures forall q :: q in r ==> InMap(q, width, height)
  {
    if n == 0 then []
    else
      var prev := Observed(surroundings, center, range, width, height, n - 1, t);
      if ObservationAt(surroundings, center, range, width, height, n - 1) == Some(t)
      then prev + [SurroundingsPos(center, range, n - 1)]
      else prev
  }

  lemma RecordPlain(seen: Seen, t: Tile, p: Position)
    ensures var r := Record(seen, t, p);
            r.enemies == seen.enemies + (if t == Enemy then [p] else [])
            && r.boulders == seen.boulders + (if t == Boulder then [p] else [])
            && r.swords == seen.swords + (if t == Sword then [p] else [])
            && r.health == seen.health + (if t == Health then [p] else [])
  {
  }

  lemma RecordColored(seen: Seen, t: Tile, p: Position, c: Color)
    ensures var r := Record(seen, t, p);
            OrEmpty(r.keys, c) == OrEmpty(seen.keys, c) + (if t == Key(c) then [p] else [])
            && (c in r.keys <==> c in seen.keys || t == Key(c))
            && OrEmpty(r.doors, c) == OrEmpty(seen.doors, c) + (if t == Door(c) then [p] else [])
            && (c in r.doors <==> c in seen.doors || t == Door(c))
            && OrEmpty(r.plates, c) == OrEmpty(seen.plates, c) + (if t == PressurePlate(c) then [p] else [])
            && (c in r.plates <==> c in seen.plates || t == PressurePlate(c))
  {
    var r := Record(seen, t, p);
    match SightingOf(t)
    case Some(KeySeen(k)) =>
      assert t == Key(k) && r == seen.(keys := Push(seen.keys, k, p));
      PushOrEmpty(seen.keys, k, p, c);
    case Some(DoorSeen(k)) =>
      assert t == Door(k) && r == seen.(doors := Push(seen.doors, k, p));
      PushOrEmpty(seen.doors, k, p, c);
    case Some(PlateSeen(k)) =>
      assert t == PressurePlate(k) && r == seen.(plates := Push(seen.plates, k, p));
      PushOrEmpty(seen.plates, k, p, c);
    case _ =>
      assert !t.Key? && !t.Door? && !t.PressurePlate?;
      assert r.keys == seen.keys && r.doors == seen.doors && r.plates == seen.plates;
  }

  /** Pushing onto colour `k`'s list extends colour `c`'s list exactly when `k == c`. */
  lemma PushOrEmpty(m: map<Color, seq<Position>>, k: Color, p: Position, c: Color)
    ensures OrEmpty(Push(m, k, p), c) == OrEmpty(m, c) + (if k == c then [p] else [])
    ensures c in Push(m, k, p) <==> c in m || k == c
  {
  }

  /** The sightings after one more index: the previous ones with that index's observation recorded. */
  lemma ScanSeenStep(init: ScanState, surroundings: seq<Option<Tile>>, center: Position,
                     range: nat, width: int, height: int, playerPos: Position, n: nat)
    requires 0 < n <= |surroundings|
    ensures var prev := Scan(init, surroundings, center, range, width, height, playerPos, n - 1).seen;
            var seen := Scan(init, surroundings, center, range, width, height, playerPos, n).seen;
            match ObservationAt(surroundings, center, range, width, height, n - 1)
            case None => seen == prev
            case Some(t) => seen == Record(prev, t, SurroundingsPos(center, range, n - 1))
  {
  }

  /** The uncoloured sighting lists are exactly the observed cells of their kind, in scan order. */
  lemma {:induction false} ScanSeenPlain(init: ScanState, surroundings: seq<Option<Tile>>, center: Position,
                                         range: nat, width: int, height: int, playerPos: Position, n: nat)
    requires n <= |surroundings|
    requires init.seen == NothingSeen
    ensures var seen := Scan(init, surroundings, center, range, width, height, playerPos, n).seen;
            seen.enemies == Observed(surroundings, center, range, width, height, n, Enemy)
            && seen.boulders == Observed(surroundings, center, range, width, height, n, Boulder)
            && seen.swords == Observed(surroundings, center, range, width, height, n, Sword)
            && seen.health == Observed(surroundings, center, range, width, height, n, Health)
  {
    if n > 0 {
      ScanSeenPlain(init, surroundings, center, range, width, height, playerPos, n - 1);
      ScanSeenStep(init, surroundings, center, range, width, height, playerPos, n);
      var prev := Scan(init, surroundings, center, range, width, height, playerPos, n - 1);
      match ObservationAt(surroundings, center, range, width, height, n - 1)
      case None =>
      case Some(t) =>
        RecordPlain(prev.seen, t, SurroundingsPos(center, range, n - 1));
    }
  }

  /** The part of a colour-keyed sighting table for one colour: present iff something was seen. */
  predicate ColoredMatches(m: map<Color, seq<Position>>, c: Color, observed: seq<Position>)
  {
    (c in m <==> |observed| > 0) && (c in m ==> m[c] == observed)
  }

  /** The coloured sighting tables hold exactly the observed cells of each colour, and only non-empty lists. */
  lemma {:induction false} ScanSeenColored(init: ScanState, surroundings: seq<Option<Tile>>, center: Position,
                                           range: nat, width: int, height: int, playerPos: Position, n: nat, c: Color)
    requires n <= |surroundings|
    requires init.seen == NothingSeen
    ensures var seen := Scan(init, surroundings, center, range, width, height, playerPos, n).seen;
            ColoredMatches(seen.keys, c, Observed(surroundings, center, range, width, height, n, Key(c)))
            && ColoredMatches(seen.doors, c, Observed(surroundings, center, range, width, height, n, Door(c)))
            && ColoredMatches(seen.plates, c, Observed(surroundings, center, range, width, height, n, PressurePlate(c)))
  {
    if n > 0 {
      ScanSeenColored(init, surroundings, center, range, width, height, playerPos, n - 1, c);
      ScanSeenStep(init, surroundings, center, range, width, height, playerPos, n);
      var prev := Scan(init, surroundings, center, range, width, height, playerPos, n - 1);
      match ObservationAt(surroundings, center, range, width, height, n - 1)
      case None =>
      case Some(t) =>
        RecordColored(prev.seen, t, SurroundingsPos(center, range, n - 1), c);
    }
  }

  /** The scan of a whole surroundings list, started from the given parts of the world state. */
  function ScanOf(tiles: map<Position, Tile>, boulders: map<Position, TrackedBoulder>, exitPos: Option<Position>,
                  bossPos: Option<Position>, treasurePos: Option<Position>, surroundings: seq<Option<Tile>>,
                  center: Position, range: nat, width: int, height: int, playerPos: Position): ScanState
  {
    Scan(ScanState(tiles, boulders, exitPos, bossPos, treasurePos, NothingSeen),
         surroundings, center, range, width, height, playerPos, |surroundings|)
  }

  // ---------------------------------------------------------------------
  // Validators, keys and walkability
  // ---------------------------------------------------------------------

  predicate IsKeyTile(t: Tile) { t.Key? }
  predicate IsDoorTile(t: Tile) { t.Door? }
  predicate IsPlateTile(t: Tile) { t.PressurePlate? }
  predicate IsSwordTile(t: Tile) { t == Sword }
  predicate IsHealthTile(t: Tile) { t == Health }
  predicate IsEnemyTile(t: Tile) { t == Enemy }

  /** A tracked boulder shows on the plate cell `p`. */
  predicate BoulderOnPlate(tiles: map<Position, Tile>, boulders: map<Position, TrackedBoulder>, p: Position)
  {
    TileAt(tiles, p) == Some(Boulder) && p in boulders
  }

  /**
   * `has_key`: the player carries the key of colour `c`, or a tracked
   * boulder holds down a plate of colour `c`.
   */
  predicate HasKeyIn(inventory: Inventory, tiles: map<Position, Tile>, plates: map<Color, seq<Position>>,
                     boulders: map<Position, TrackedBoulder>, c: Color)
  {
    inventory == KeyItem(c) || exists p :: p in OrEmpty(plates, c) && BoulderOnPlate(tiles, boulders, p)
  }

  /** The plates of colour `c` that a tracked boulder holds down, in tracker order. */
  function PlatesWithBoulders(tiles: map<Position, Tile>, plates: map<Color, seq<Position>>,
                              boulders: map<Position, TrackedBoulder>, c: Color): seq<Position>
  {
    Retain(OrEmpty(plates, c), p => BoulderOnPlate(tiles, boulders, p))
  }

  /** Some plate of colour `c` is held down exactly when the list of held-down plates is not empty. */
  lemma PlatesWithBouldersSpec(tiles: map<Position, Tile>, plates: map<Color, seq<Position>>,
                               boulders: map<Position, TrackedBoulder>, c: Color)
    ensures forall p :: p in PlatesWithBoulders(tiles, plates, boulders, c)
                        <==> p in OrEmpty(plates, c) && BoulderOnPlate(tiles, boulders, p)
    ensures |PlatesWithBoulders(tiles, plates, boulders, c)| > 0
        <==> exists p :: p in OrEmpty(plates, c) && BoulderOnPlate(tiles, boulders, p)
  {
    RetainSpec(OrEmpty(plates, c), p => BoulderOnPlate(tiles, boulders, p));
    var r := PlatesWithBoulders(tiles, plates, boulders, c);
    if |r| > 0 {
      assert r[0] in r;
    }
  }

  /** The tiles every walkability test lets through. */
  predicate OpenTile(t: Tile)
  {
    t == Empty || t == Exit || t == Player || t == Sword || t == Health || t.PressurePlate?
    || t == Treasure || t == Unknown
  }

  /** `is_walkable`. */
  function Walkable(tiles: map<Position, Tile>, inventory: Inventory, plates: map<Color, seq<Position>>,
                    boulders: map<Position, TrackedBoulder>, pos: Position, canOpenDoors: bool, avoidKeys: bool): (r: bool)
    ensures pos !in tiles ==> r
    ensures pos in tiles && tiles[pos].Door? ==>
      (r <==> canOpenDoors && HasKeyIn(inventory, tiles, plates, boulders, tiles[pos].doorColor))
    ensures pos in tiles && tiles[pos].Key? ==> (r <==> !avoidKeys && inventory == Nothing)
    ensures pos in tiles && (tiles[pos] == Wall || tiles[pos] == Boulder || tiles[pos] == Enemy || tiles[pos] == Boss) ==> !r
  {
    match TileAt(tiles, pos)
    case None => true
    case Some(t) =>
      if OpenTile(t) then true
      else if t.Key? then (if avoidKeys then false else inventory == Nothing)
      else if t.Door? then canOpenDoors && HasKeyIn(inventory, tiles, plates, boulders, t.doorColor)
      else false
  }

  /** `is_walkable_with_goal`: like `Walkable`, but a key tile is walkable only as the destination. */
  function WalkableWithGoal(tiles: map<Position, Tile>, inventory: Inventory, plates: map<Color, seq<Position>>,
                            boulders: map<Position, TrackedBoulder>, pos: Position, canOpenDoors: bool,
                            goal: Position): (r: bool)
    ensures pos !in tiles ==> r
    ensures pos in tiles && tiles[pos].Door? ==>
      (r <==> canOpenDoors && HasKeyIn(inventory, tiles, plates, boulders, tiles[pos].doorColor))
    ensures pos in tiles && tiles[pos].Key? ==> (r <==> pos == goal)
    ensures pos in tiles && (tiles[pos] == Wall || tiles[pos] == Boulder || tiles[pos] == Enemy || tiles[pos] == Boss) ==> !r
  {
    match TileAt(tiles, pos)
    case None => true
    case Some(t) =>
      if OpenTile(t) then true
      else if t.Key? then pos == goal
      else if t.Door? then canOpenDoors && HasKeyIn(inventory, tiles, plates, boulders, t.doorColor)
      else false
  }

  /** The two walkability tests differ on key tiles only. */
  lemma WalkableAgreeOffKeys(tiles: map<Position, Tile>, inventory: Inventory, plates: map<Color, seq<Position>>,
                             boulders: map<Position, TrackedBoulder>, pos: Position, canOpenDoors: bool,
                             avoidKeys: bool, goal: Position)
    requires !(pos in tiles && tiles[pos].Key?)
    ensures Walkable(tiles, inventory, plates, boulders, pos, canOpenDoors, avoidKeys)
         == WalkableWithGoal(tiles, inventory, plates, boulders, pos, canOpenDoors, goal)
  {
  }

  // ---------------------------------------------------------------------
  // Sorting the frontier
  // ---------------------------------------------------------------------

  predicate SortedByDistance(s: seq<Position>, from: Position)
  {
    forall i, j :: 0 <= i < j < |s| ==> Distance(from, s[i]) <= Distance(from, s[j])
  }

  /** Insert `p` after every element no farther than it (keeps equal keys in order). */
  function InsertByDistance(s: seq<Position>, p: Position, from: Position): (r: seq<Position>)
    ensures multiset(r) == multiset(s) + multiset{p}
    ensures |r| == |s| + 1 && (r[0] == p || (s != [] && r[0] == s[0]))
  {
    if s == [] then [p]
    else if Distance(from, p) < Distance(from, s[0]) then [p] + s
    else
      assert s == [s[0]] + s[1..];
      [s[0]] + InsertByDistance(s[1..], p, from)
  }

  /** Putting an element no farther than the head in front of a sorted list keeps it sorted. */
  lemma ConsSorted(x: Position, r: seq<Position>, from: Position)
    requires SortedByDistance(r, from)
    requires r != [] ==> Distance(from, x) <= Distance(from, r[0])
    ensures SortedByDistance([x] + r, from)
  {
    var t := [x] + r;
    forall i, j | 0 <= i < j < |t| ensures Distance(from, t[i]) <= Distance(from, t[j]) {
      assert t[j] == r[j - 1];
      if i == 0 {
        if j > 1 {
          assert Distance(from, r[0]) <= Distance(from, r[j - 1]);
        }
      } else {
        assert t[i] == r[i - 1];
      }
    }
  }

  lemma {:induction false} InsertSorted(s: seq<Position>, p: Position, from: Position)
    requires SortedByDistance(s, from)
    ensures SortedByDistance(InsertByDistance(s, p, from), from)
  {
    if s == [] {
    } else if Distance(from, p) < Distance(from, s[0]) {
      ConsSorted(p, s, from);
    } else {
      var tail := s[1..];
      assert SortedByDistance(tail, from) by {
        forall i, j | 0 <= i < j < |tail| ensures Distance(from, tail[i]) <= Distance(from, tail[j]) {
          assert tail[i] == s[i + 1] && tail[j] == s[j + 1];
        }
      }
      InsertSorted(tail, p, from);
      var rest := InsertByDistance(tail, p, from);
      if rest[0] != p {
        assert Distance(from, s[0]) <= Distance(from, s[1]);
      }
      ConsSorted(s[0], rest, from);
      assert InsertByDistance(s, p, from) == [s[0]] + rest;
    }
  }

  /** Stable sort by distance to `from` (`sort_by_key`). */
  function SortByDistance(s: seq<Position>, from: Position): (r: seq<Position>)
    ensures multiset(r) == multiset(s)
    ensures SortedByDistance(r, from)
  {
    if s == [] then []
    else
      assert s == s[..|s| - 1] + [s[|s| - 1]];
      InsertSorted(SortByDistance(s[..|s| - 1], from), s[|s| - 1], from);
      InsertByDistance(SortByDistance(s[..|s| - 1], from), s[|s| - 1], from)
  }

  lemma MultisetNoDuplicates(a: seq<Position>, b: seq<Position>)
    requires multiset(a) == multiset(b) && NoDuplicates(a)
    ensures NoDuplicates(b)
  {
    forall i, j | 0 <= i < j < |b| ensures b[i] != b[j] {
      NoDuplicatesCount(a, b[i]);
      assert b == b[..j] + [b[j]] + b[j + 1..];
      assert b[i] in multiset(b[..j]);
    }
  }

  lemma {:induction false} NoDuplicatesCount(a: seq<Position>, x: Position)
    requires NoDuplicates(a)
    ensures multiset(a)[x] <= 1
  {
    if a != [] {
      NoDuplicatesCount(a[1..], x);
      assert a == [a[0]] + a[1..];
      if a[0] == x {
        assert x !in a[1..];
      }
    }
  }

  // ---------------------------------------------------------------------
  // The world state
  // ---------------------------------------------------------------------

  class WorldState {
    var level: int
    var tick: int
    const mapWidth: int
    const mapHeight: int
    const visibilityRange: int

    var tiles: map<Position, Tile>

    var playerPos: Position
    var playerHealth: int
    var playerInventory: Inventory
    var playerHasSword: bool

    var player2Pos: Option<Position>
    var player2Health: Option<int>
    var player2Inventory: Option<Inventory>
    var player2HasSword: Option<bool>

    const keys: ColoredItemTracker
    const doors: ColoredItemTracker
    const enemies: ItemTracker
    const boulderInfo: BoulderTracker
    const swords: ItemTracker
    const health: ItemTracker
    const pressurePlates: ColoredItemTracker
    var exitPos: Option<Position>
    var bossPosition: Option<Position>
    var treasurePosition: Option<Position>

    var unexploredFrontier: set<Position>

    var previousGoal: Option<Goal>
    var currentDestination: Option<Position>
    var currentPath: Option<seq<Position>>

    /** The trackers are separate objects, and the visibility range is a radius. */
    ghost predicate Valid()
      reads boulderInfo
    {
      visibilityRange >= 0
      && keys != doors && keys != pressurePlates && doors != pressurePlates
      && enemies != swords && enemies != health && swords != health
      && boulderInfo.Valid()
    }

    constructor (width: int, height: int, range: nat)
      ensures Valid()
      ensures mapWidth == width && mapHeight == height && visibilityRange == range
      ensures tiles == map[] && unexploredFrontier == {} && playerHealth == 10 && playerInventory == Nothing
    {
      level := 0;
      tick := 0;
      mapWidth := width;
      mapHeight := height;
      visibilityRange := range;
      tiles := map[];
      playerPos := Position(0, 0);
      playerHealth := 10;
      playerInventory := Nothing;
      playerHasSword := false;
      player2Pos := None;
      player2Health := None;
      player2Inventory := None;
      player2HasSword := None;
      exitPos := None;
      keys := new ColoredItemTracker();
      doors := new ColoredItemTracker();
      enemies := new ItemTracker();
      boulderInfo := new BoulderTracker();
      swords := new ItemTracker();
      health := new ItemTracker();
      pressurePlates := new ColoredItemTracker();
      bossPosition := None;
      treasurePosition := None;
      unexploredFrontier := {};
      previousGoal := None;
      currentDestination := None;
      currentPath := None;
    }

    /** `reset_for_new_level`: forget the level's map and items and the player's per-level state. */
    method ResetForNewLevel()
      requires Valid()
      modifies this, keys, doors, enemies, boulderInfo, swords, health, pressurePlates
      ensures Valid()
      ensures tiles == map[] && exitPos == None && bossPosition == None && treasurePosition == None
      ensures keys.positions == map[] && doors.positions == map[] && pressurePlates.positions == map[]
      ensures enemies.positions == [] && swords.positions == [] && health.positions == []
      ensures boulderInfo.boulders == map[] && unexploredFrontier == {}
      ensures playerInventory == Nothing && !playerHasSword
      ensures player2Pos == None && player2Health == None && player2Inventory == None && player2HasSword == None
      ensures previousGoal == None && currentDestination == None && currentPath == None
      ensures level == old(level) && tick == old(tick) && playerPos == old(playerPos) && playerHealth == old(playerHealth)
    {
      ClearLevelMap();
      ClearTrackers();
      ResetPlayerItems();
      ClearPlanning();
    }

    method ClearLevelMap()
      modifies this`tiles, this`exitPos, this`bossPosition, this`treasurePosition, this`unexploredFrontier
      ensures tiles == map[] && exitPos == None && bossPosition == None && treasurePosition == None
      ensures unexploredFrontier == {}
    {
      tiles := map[];
      exitPos := None;
      bossPosition := None;
      treasurePosition := None;
      unexploredFrontier := {};
    }

    method ResetPlayerItems()
      modifies this`playerInventory, this`playerHasSword, this`player2Pos, this`player2Health,
               this`player2Inventory, this`player2HasSword
      ensures playerInventory == Nothing && !playerHasSword
      ensures player2Pos == None && player2Health == None && player2Inventory == None && player2HasSword == None
    {
      playerInventory := Nothing;
      playerHasSword := false;
      player2Pos := None;
      player2Health := None;
      player2Inventory := None;
      player2HasSword := None;
    }

    method ClearPlanning()
      modifies this`previousGoal, this`currentDestination, this`currentPath
      ensures previousGoal == None && currentDestination == None && currentPath == None
    {
      previousGoal := None;
      currentDestination := None;
      currentPath := None;
    }

    /** The tracker part of `reset_for_new_level`. */
    method ClearTrackers()
      requires Valid()
      modifies keys, doors, enemies, boulderInfo, swords, health, pressurePlates
      ensures Valid()
      ensures keys.positions == map[] && doors.positions == map[] && pressurePlates.positions == map[]
      ensures enemies.positions == [] && swords.positions == [] && health.positions == []
      ensures boulderInfo.boulders == map[]
    {
      keys.Clear();
      doors.Clear();
      enemies.Clear();
      boulderInfo.Clear();
      swords.Clear();
      health.Clear();
      pressurePlates.Clear();
    }

    /** `check_dropped_boulder`, run before the map is updated at `pos`. */
    method CheckDroppedBoulder(pos: Position)
      requires Valid()
      modifies boulderInfo
      ensures Valid()
      ensures boulderInfo.boulders ==
        if IsAdjacent(playerPos, pos) && pos !in old(boulderInfo.boulders)
        then old(boulderInfo.boulders)[pos := TrackedBoulder(pos, DroppedFlag(TileAt(tiles, pos)))]
        else old(boulderInfo.boulders)
    {
      if IsAdjacent(playerPos, pos) {
        var hasMoved := match TileAt(tiles, pos)
          case Some(Empty) => true
          case Some(Player) => true
          case Some(PressurePlate(_)) => true
          case None => false
          case _ => false;
        if !boulderInfo.Contains(pos) {
          boulderInfo.AddBoulder(pos, hasMoved);
        }
      }
    }

    /** One cell of the loop of `integrate_surroundings`: a decoded tile on an in-map cell. */
    method ScanCell(pos: Position, tile: Tile, seen: Seen) returns (seen': Seen)
      requires Valid()
      modifies this`tiles, this`exitPos, this`bossPosition, this`treasurePosition, boulderInfo
      ensures Valid()
      ensures ScanState(tiles, boulderInfo.boulders, exitPos, bossPosition, treasurePosition, seen')
           == ScanStep(ScanState(old(tiles), old(boulderInfo.boulders), old(exitPos), old(bossPosition),
                                 old(treasurePosition), seen), pos, tile, playerPos)
    {
      seen' := seen;
      var shouldUpdate := ShouldUpdate(TileAt(tiles, pos), tile);
      if tile == Boulder {
        CheckDroppedBoulder(pos);
      }
      if shouldUpdate {
        tiles := tiles[pos := tile];
      }
      if tile != Unknown {
        match tile {
          case Exit => exitPos := Some(pos);
          case Boss => bossPosition := Some(pos);
          case Treasure => treasurePosition := Some(pos);
          case _ => seen' := Record(seen', tile, pos);
        }
      }
    }

    /** The loop of `integrate_surroundings` over the decoded surroundings. */
    method ScanSurroundings(surroundings: seq<Option<Tile>>, center: Position) returns (seen: Seen)
      requires Valid()
      modifies this`tiles, this`exitPos, this`bossPosition, this`treasurePosition, boulderInfo
      ensures Valid()
      ensures ScanState(tiles, boulderInfo.boulders, exitPos, bossPosition, treasurePosition, seen)
           == ScanOf(old(tiles), old(boulderInfo.boulders), old(exitPos), old(bossPosition), old(treasurePosition),
                     surroundings, center, visibilityRange, mapWidth, mapHeight, playerPos)
    {
      var range: nat := visibilityRange;
      var size := GridSize(range);
      ghost var init := ScanState(tiles, boulderInfo.boulders, exitPos, bossPosition, treasurePosition, NothingSeen);
      seen := NothingSeen;
      for idx := 0 to |surroundings|
        invariant Valid()
        invariant ScanState(tiles, boulderInfo.boulders, exitPos, bossPosition, treasurePosition, seen)
               == Scan(init, surroundings, center, range, mapWidth, mapHeight, playerPos, idx)
      {
        var row := idx / size;
        var col := idx % size;
        var pos := Position(center.x + col - range, center.y + row - range);
        assert pos == SurroundingsPos(center, range, idx);
        if pos.x < 0 || pos.x >= mapWidth || pos.y < 0 || pos.y >= mapHeight {
          continue;
        }
        if surroundings[idx].Some? {
          seen := ScanCell(pos, surroundings[idx].value, seen);
        }
      }
    }

    /**
     * `integrate_surroundings`: drop Unknown tiles outside the new square,
     * scan the surroundings into the map and the sighting lists, then feed
     * every tracker with its sightings, the updated map and the square.
     */
    method IntegrateSurroundings(surroundings: seq<Option<Tile>>, center: Position) returns (ghost scanned: ScanState)
      requires Valid()
      modifies this`tiles, this`exitPos, this`bossPosition, this`treasurePosition
      modifies keys, doors, enemies, boulderInfo, swords, health, pressurePlates
      ensures Valid()
      ensures scanned == ScanOf(FogRetain(old(tiles), FromCenterAndRange(center, visibilityRange)),
                                old(boulderInfo.boulders), old(exitPos), old(bossPosition), old(treasurePosition),
                                surroundings, center, visibilityRange, mapWidth, mapHeight, playerPos)
      ensures tiles == scanned.tiles && exitPos == scanned.exitPos
      ensures bossPosition == scanned.bossPos && treasurePosition == scanned.treasurePos
      ensures keys.positions.Keys == old(keys.positions).Keys + scanned.seen.keys.Keys
      ensures forall c :: c in keys.positions ==>
        keys.positions[c] == Updated(OrEmpty(old(keys.positions), c), OrEmpty(scanned.seen.keys, c), tiles,
                                     [FromCenterAndRange(center, visibilityRange)], Lift(IsKeyTile))
      ensures doors.positions.Keys == old(doors.positions).Keys + scanned.seen.doors.Keys
      ensures forall c :: c in doors.positions ==>
        doors.positions[c] == Updated(OrEmpty(old(doors.positions), c), OrEmpty(scanned.seen.doors, c), tiles,
                                      [FromCenterAndRange(center, visibilityRange)], Lift(IsDoorTile))
      ensures pressurePlates.positions.Keys == old(pressurePlates.positions).Keys + scanned.seen.plates.Keys
      ensures forall c :: c in pressurePlates.positions ==>
        pressurePlates.positions[c] == Updated(OrEmpty(old(pressurePlates.positions), c), OrEmpty(scanned.seen.plates, c),
                                               tiles, [FromCenterAndRange(center, visibilityRange)], Lift(IsPlateTile))
      ensures swords.positions == Updated(old(swords.positions), scanned.seen.swords, tiles,
                                          [FromCenterAndRange(center, visibilityRange)], Lift(IsSwordTile))
      ensures health.positions == Updated(old(health.positions), scanned.seen.health, tiles,
                                          [FromCenterAndRange(center, visibilityRange)], Lift(IsHealthTile))
      ensures enemies.positions == Updated(old(enemies.positions), scanned.seen.enemies, tiles,
                                           [FromCenterAndRange(center, visibilityRange)], Lift(IsEnemyTile))
      ensures forall p :: p in boulderInfo.boulders <==>
        (p in scanned.boulders || p in scanned.seen.boulders) && !(p in tiles && tiles[p] != Tile.Boulder)
      ensures forall p :: p in boulderInfo.boulders && p in scanned.boulders ==> boulderInfo.boulders[p] == scanned.boulders[p]
      ensures forall p :: p in boulderInfo.boulders && p !in scanned.boulders ==>
        boulderInfo.boulders[p] == TrackedBoulder(p, IsAdjacent(playerPos, p))
    {
      var bounds := FromCenterAndRange(center, visibilityRange);
      tiles := FogRetain(tiles, bounds);
      var seen := ScanSurroundings(surroundings, center);
      scanned := ScanState(tiles, boulderInfo.boulders, exitPos, bossPosition, treasurePosition, seen);
      UpdateColoredTrackers(seen, bounds);
      var playerAt := playerPos;
      boulderInfo.Update(seen.boulders, tiles, p => IsAdjacent(playerAt, p));
      UpdatePlainTrackers(seen, bounds);
    }

    /** The key, door and plate tracker updates of `integrate_surroundings`. */
    method UpdateColoredTrackers(seen: Seen, bounds: Bounds)
      requires Valid()
      modifies keys, doors, pressurePlates
      ensures Valid()
      ensures keys.positions.Keys == old(keys.positions).Keys + seen.keys.Keys
      ensures forall c :: c in keys.positions ==>
        keys.positions[c] == Updated(OrEmpty(old(keys.positions), c), OrEmpty(seen.keys, c), tiles,
                                     [bounds], Lift(IsKeyTile))
      ensures doors.positions.Keys == old(doors.positions).Keys + seen.doors.Keys
      ensures forall c :: c in doors.positions ==>
        doors.positions[c] == Updated(OrEmpty(old(doors.positions), c), OrEmpty(seen.doors, c), tiles,
                                      [bounds], Lift(IsDoorTile))
      ensures pressurePlates.positions.Keys == old(pressurePlates.positions).Keys + seen.plates.Keys
      ensures forall c :: c in pressurePlates.positions ==>
        pressurePlates.positions[c] == Updated(OrEmpty(old(pressurePlates.positions), c), OrEmpty(seen.plates, c),
                                               tiles, [bounds], Lift(IsPlateTile))
    {
      keys.Update(seen.keys, tiles, IsKeyTile, [bounds]);
      doors.Update(seen.doors, tiles, IsDoorTile, [bounds]);
      pressurePlates.Update(seen.plates, tiles, IsPlateTile, [bounds]);
    }

    /** The sword, health and enemy tracker updates of `integrate_surroundings`. */
    method UpdatePlainTrackers(seen: Seen, bounds: Bounds)
      requires Valid()
      modifies swords, health, enemies
      ensures Valid()
      ensures swords.positions == Updated(old(swords.positions), seen.swords, tiles, [bounds], Lift(IsSwordTile))
      ensures health.positions == Updated(old(health.positions), seen.health, tiles, [bounds], Lift(IsHealthTile))
      ensures enemies.positions == Updated(old(enemies.positions), seen.enemies, tiles, [bounds], Lift(IsEnemyTile))
    {
      swords.Update(seen.swords, tiles, IsSwordTile, [bounds]);
      health.Update(seen.health, tiles, IsHealthTile, [bounds]);
      enemies.Update(seen.enemies, tiles, IsEnemyTile, [bounds]);
    }

    /** `get_boulders_on_plates`: per colour, the plates a tracked boulder holds down; colours without any are absent. */
    method GetBouldersOnPlates() returns (result: map<Color, seq<Position>>)
      ensures forall c :: ColoredMatches(result, c, PlatesWithBoulders(tiles, pressurePlates.positions, boulderInfo.boulders, c))
    {
      result := map[];
      var tilesNow := tiles;
      var bouldersNow := boulderInfo.boulders;
      var onPlate := p => BoulderOnPlate(tilesNow, bouldersNow, p);
      for i := 0 to |AllColors|
        invariant forall c :: c in AllColors[..i] ==>
          ColoredMatches(result, c, PlatesWithBoulders(tilesNow, pressurePlates.positions, bouldersNow, c))
        invariant forall c :: c !in AllColors[..i] ==> c !in result
      {
        var color := AllColors[i];
        assert AllColors[..i + 1] == AllColors[..i] + [color];
        var platePositions := pressurePlates.GetPositions(color);
        if platePositions.Some? {
          var plates := platePositions.value;
          ghost var before := result;
          for j := 0 to |plates|
            invariant ColoredMatches(result, color, Retain(plates[..j], onPlate))
            invariant forall c :: c != color ==> (c in result <==> c in before) && (c in result ==> result[c] == before[c])
          {
            var platePos := plates[j];
            assert plates[..j + 1][..j] == plates[..j];
            if TileAt(tiles, platePos).Some? && TileAt(tiles, platePos).value == Tile.Boulder && boulderInfo.Contains(platePos) {
              result := Push(result, color, platePos);
            }
          }
          assert plates[..|plates|] == plates;
        }
      }
      forall c ensures c in AllColors[..|AllColors|] {
        AllColorsComplete(c);
      }
    }

    /** `has_key`: a key of colour `c` in the inventory, or a tracked boulder on a plate of colour `c`. */
    method HasKey(c: Color) returns (r: bool)
      ensures r <==> playerInventory == KeyItem(c)
                     || exists p :: p in OrEmpty(pressurePlates.positions, c) && BoulderOnPlate(tiles, boulderInfo.boulders, p)
      ensures r == HasKeyIn(playerInventory, tiles, pressurePlates.positions, boulderInfo.boulders, c)
    {
      var hasPhysicalKey := playerInventory == KeyItem(c);
      var bouldersOnPlates := GetBouldersOnPlates();
      var hasBoulderOnPlate := c in bouldersOnPlates && |bouldersOnPlates[c]| > 0;
      PlatesWithBouldersSpec(tiles, pressurePlates.positions, boulderInfo.boulders, c);
      r := hasPhysicalKey || hasBoulderOnPlate;
    }

    /**
     * `sorted_unexplored`: the frontier, collected in the set's own
     * (unspecified) order, then stably sorted by distance to the player.
     */
    method SortedUnexplored() returns (frontier: seq<Position>)
      ensures forall p :: p in frontier <==> p in unexploredFrontier
      ensures NoDuplicates(frontier) && |frontier| == |unexploredFrontier|
      ensures SortedByDistance(frontier, playerPos)
    {
      var listed: seq<Position> := [];
      var remaining := unexploredFrontier;
      while remaining != {}
        invariant remaining <= unexploredFrontier
        invariant forall p :: p in listed <==> p in unexploredFrontier && p !in remaining
        invariant NoDuplicates(listed)
        invariant |listed| + |remaining| == |unexploredFrontier|
        decreases remaining
      {
        var p :| p in remaining;
        listed := listed + [p];
        remaining := remaining - {p};
      }
      frontier := SortByDistance(listed, playerPos);
      MultisetNoDuplicates(listed, frontier);
      assert |frontier| == |multiset(frontier)| == |multiset(listed)| == |listed|;
      forall p ensures p in frontier <==> p in listed {
        assert p in frontier <==> p in multiset(frontier);
        assert p in listed <==> p in multiset(listed);
      }
    }
  }
}
