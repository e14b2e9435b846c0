/** The records shared by every part of the leaderboard page (types.ts). */
module Types {

  /** An optional value: the source's `?:` fields and `| null` states. */
  datatype Option<+T> = None | Some(value: T)

  /** Either a value or the error an async call was rejected with. */
  datatype Result<+T, +E> = Success(value: T) | Failure(error: E)

  /** The three movement markers a player row may carry. */
  datatype Change = Up | Down | Neutral

  /** One ranked participant. Numbers are JavaScript numbers in the source;
      here they are integers. `change` is optional, as in the source. */
  datatype Player = Player(
    rank: int,
    username: string,
    wagered: int,
    prize: int,
    change: Option<Change>)

  /** The countdown's four display fields. */
  datatype TimeLeft = TimeLeft(days: int, hours: int, minutes: int, seconds: int)

  /** The only region key of the static leaderboard record. */
  datatype Region = Global

  /** Which leaderboard a component renders for: amounts as currency with a
      wagered column (Betstrike), or as plain coin counts (Juice). */
  datatype Variant = Betstrike | Juice
}
