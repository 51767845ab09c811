/**
 * The game-interface enumerations the bot decides over. In the repository
 * they are generated from the game's protocol description at build time,
 * so their integer codes are not part of this model: tiles arrive here
 * already decoded. The colour-indexed variants of the flat protocol enums
 * (KEY_RED, DOOR_GREEN, PRESSURE_PLATE_BLUE, ...) are written with a colour
 * argument.
 */
module Swoq {
  import opened Wrappers
  import opened Types

  datatype Tile =
    | Unknown
    | Empty
    | Player
    | Wall
    | Exit
    | Key(keyColor: Color)
    | Door(doorColor: Color)
    | PressurePlate(plateColor: Color)
    | Enemy
    | Boulder
    | Sword
    | Health
    | Boss
    | Treasure

  datatype Inventory = Nothing | KeyItem(color: Color) | BoulderItem | TreasureItem

  datatype DirectedAction =
    | MoveNorth | MoveEast | MoveSouth | MoveWest
    | UseNorth | UseEast | UseSouth | UseWest
  {
    predicate IsMove()
    {
      MoveNorth? || MoveEast? || MoveSouth? || MoveWest?
    }
  }

  /** The cell a directed action moves onto or acts upon, seen from `from`. */
  function ActionTarget(from: Position, a: DirectedAction): (p: Position)
    ensures IsAdjacent(from, p)
  {
    match a
    case MoveNorth | UseNorth => Position(from.x, from.y - 1)
    case MoveEast | UseEast => Position(from.x + 1, from.y)
    case MoveSouth | UseSouth => Position(from.x, from.y + 1)
    case MoveWest | UseWest => Position(from.x - 1, from.y)
  }

  /** `map.get(pos)` on the bot's tile map: `None` for a cell never seen. */
  function TileAt(tiles: map<Position, Tile>, p: Position): (r: Option<Tile>)
    ensures r.Some? <==> p in tiles
    ensures r.Some? ==> tiles[p] == r.value
  {
    if p in tiles then Some(tiles[p]) else None
  }
}
