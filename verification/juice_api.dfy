/** `fetchJuiceLeaderboard` and its mock fallback (services/juiceApi.ts).
    The HTTP exchange is an input: what `fetch` and `response.json()`
    produced, rather than the calls themselves. */
module JuiceApi {
  import opened Types
  import opened Text
  import Constants

  /** One entry of the response's `players` array. */
  datatype RawEntry = RawEntry(rank: int, username: string, wagered: int, prize: int)

  /** What `response.json()` yielded: an object whose `players` field is an
      array of entries, or anything that makes the transform throw (a body
      that is not JSON, or has no `players` array), with the thrown message. */
  datatype Body = PlayersField(players: seq<RawEntry>) | Unparseable(message: string)

  /** How the request ended: `fetch` rejected, or a response arrived. */
  datatype FetchOutcome =
    | NetworkError(message: string)
    | Response(status: int, body: Body)

  /** `response.ok`: a status in the 200-299 range. */
  predicate IsOk(status: int) {
    200 <= status <= 299
  }

  function StatusMessage(status: int): string {
    "API request failed with status " + IntToString(status)
  }

  /** One entry mapped to a `Player`, every entry marked unchanged. */
  function ToPlayer(e: RawEntry): (p: Player)
    ensures p.rank == e.rank && p.username == e.username
    ensures p.wagered == e.wagered && p.prize == e.prize
    ensures p.change == Some(Neutral)
  {
    Player(e.rank, e.username, e.wagered, e.prize, Some(Neutral))
  }

  /** The `players.map(...)` transform: same length, same order. */
  function Normalize(entries: seq<RawEntry>): (r: seq<Player>)
    ensures |r| == |entries|
    ensures forall i :: 0 <= i < |r| ==> r[i] == ToPlayer(entries[i])
  {
    seq(|entries|, i requires 0 <= i < |entries| => ToPlayer(entries[i]))
  }

  /** The fields of a player that the feed supplies. */
  function ToRaw(p: Player): RawEntry {
    RawEntry(p.rank, p.username, p.wagered, p.prize)
  }

  /** Dropping the `change` marker again recovers the feed exactly: the
      transform loses nothing and invents nothing but the marker. */
  lemma NormalizeLosesNothing(entries: seq<RawEntry>)
    ensures |Normalize(entries)| == |entries|
    ensures forall i :: 0 <= i < |entries| ==> ToRaw(Normalize(entries)[i]) == entries[i]
    ensures Constants.AllNeutral(Normalize(entries))
  {
  }

  /** The body of the `try` block: the list it returns, or the message of
      what it throws. */
  function RequestLeaderboard(outcome: FetchOutcome): (r: Result<seq<Player>, string>)
    ensures r.Success? <==> outcome.Response? && IsOk(outcome.status) && outcome.body.PlayersField?
    ensures r.Success? ==> r.value == Normalize(outcome.body.players)
    ensures outcome.Response? && !IsOk(outcome.status) ==> r == Failure(StatusMessage(outcome.status))
    ensures outcome.NetworkError? ==> r == Failure(outcome.message)
  {
    match outcome
    case NetworkError(message) => Failure(message)
    case Response(status, body) =>
      if !IsOk(status) then Failure(StatusMessage(status))
      else match body
        case Unparseable(message) => Failure(message)
        case PlayersField(players) => Success(Normalize(players))
  }

  /** The whole service call: the transformed feed, or the mock list when
      anything in the `try` block threw. It has no failure result at all. */
  function FetchJuiceLeaderboard(outcome: FetchOutcome): (r: seq<Player>)
    ensures RequestLeaderboard(outcome).Success? ==> r == RequestLeaderboard(outcome).value
    ensures RequestLeaderboard(outcome).Failure? ==> r == MockJuiceLeaderboard()
  {
    match RequestLeaderboard(outcome)
    case Success(players) => players
    case Failure(_) => MockJuiceLeaderboard()
  }

  /** The fallback list: six neutral entries, ranks 1 to 6. */
  function MockJuiceLeaderboard(): (r: seq<Player>)
    ensures |r| == 6
    ensures Constants.RanksFromOne(r) && Constants.AllNeutral(r)
    ensures Constants.PrizesNonIncreasing(r) && Constants.WageredNonIncreasing(r)
  {
    [
      Player(1, "smila", 12500, 250, Some(Neutral)),
      Player(2, "boat", 9800, 150, Some(Neutral)),
      Player(3, "angel_of_death", 7200, 50, Some(Neutral)),
      Player(4, "player_04", 5100, 25, Some(Neutral)),
      Player(5, "player_05", 3400, 15, Some(Neutral)),
      Player(6, "player_06", 2100, 10, Some(Neutral))
    ]
  }

  /** Every failure, whatever its kind, yields the same mock list. */
  lemma FailuresAreIndistinguishable(a: FetchOutcome, b: FetchOutcome)
    requires RequestLeaderboard(a).Failure? && RequestLeaderboard(b).Failure?
    ensures FetchJuiceLeaderboard(a) == FetchJuiceLeaderboard(b) == MockJuiceLeaderboard()
  {
  }

  /** A non-ok status never reaches the transform, whatever the body holds. */
  lemma BadStatusFallsBack(status: int, body: Body)
    requires !IsOk(status)
    ensures FetchJuiceLeaderboard(Response(status, body)) == MockJuiceLeaderboard()
  {
  }

  /** The service returns an empty list exactly when the feed answered ok
      with an empty `players` array. */
  lemma EmptyOnlyFromEmptyFeed(outcome: FetchOutcome)
    ensures |FetchJuiceLeaderboard(outcome)| == 0 <==>
              outcome.Response? && IsOk(outcome.status) && outcome.body == PlayersField([])
  {
  }

  /** Ranks pass through unchanged, so a feed in rank order stays in rank
      order: the service does not sort, it preserves. */
  lemma NormalizePreservesRankOrder(entries: seq<RawEntry>)
    requires forall i, j :: 0 <= i < j < |entries| ==> entries[i].rank < entries[j].rank
    ensures forall i, j :: 0 <= i < j < |Normalize(entries)| ==>
              Normalize(entries)[i].rank < Normalize(entries)[j].rank
  {
  }
}
