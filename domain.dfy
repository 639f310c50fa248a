/**
 * The values the two hooks work on: sides, fighters, coordinates, and the
 * errors their lookups throw. The game's own type files are not part of this
 * model; these are the minimal shapes the hooks read and write.
 */
module Domain {

  /** A value that may be `undefined` in the game. */
  datatype Option<+T> = None | Some(value: T)

  /** A thrown error becomes `Failure`; `:-` propagates it like a throw. */
  datatype Result<+T> = Success(value: T) | Failure(error: Error) {
    predicate IsFailure() { Failure? }

    function PropagateFailure<U>(): Result<U>
      requires Failure?
    {
      Failure(error)
    }

    function Extract(): T
      requires Success?
    {
      value
    }
  }

  /** The two sides; the game knows no others. */
  datatype PlayerId = A | B

  /** A board cell. Equality is structural, as lodash `isEqual` compares it. */
  datatype Coordinate = Coordinate(x: int, y: int)

  /** A fighter's attack loadout. */
  datatype Move = Move(atk: int, dmg: int)

  /** A unit. `coordinate` is `None` once the fighter is removed from the board. */
  datatype Fighter = Fighter(
    id: int,
    name: string,
    def: int,
    move: Move,
    currentHp: int,
    coordinate: Option<Coordinate>)

  /** A side with its fighters, in roster order, and its score. */
  datatype Player = Player(id: PlayerId, fighters: seq<Fighter>, victoryPoint: int)

  /** The errors the hooks throw. */
  datatype Error =
    | PlayerNotFound(playerId: PlayerId)   // usePlayer, usePlayersFighter, ADD_VICTORY_POINT
    | AttackerPlayerNotFound               // ATTACK: no side owns the attacker's id
    | FighterNotFound(name: string)        // ATTACK and MOVE: no fighter has the payload's id
    | FighterIdNotFound(id: int)           // useFighter
    | OwnerNotFound                        // findPlayerByFighter
}
