/** The static datasets and helpers of constants.ts. */
module Constants {
  import opened Types

  /** Ranks run 1, 2, 3, ... in list order: the order the podium and the
      table assume. Implies strictly ascending, hence unique, ranks. */
  predicate RanksFromOne(players: seq<Player>) {
    forall i :: 0 <= i < |players| ==> players[i].rank == i + 1
  }

  predicate RanksUnique(players: seq<Player>) {
    forall i, j :: 0 <= i < j < |players| ==> players[i].rank != players[j].rank
  }

  lemma RanksFromOneAreUnique(players: seq<Player>)
    requires RanksFromOne(players)
    ensures RanksUnique(players)
  {
  }

  predicate PrizesNonIncreasing(players: seq<Player>) {
    forall i, j :: 0 <= i < j < |players| ==> players[j].prize <= players[i].prize
  }

  predicate WageredNonIncreasing(players: seq<Player>) {
    forall i, j :: 0 <= i < j < |players| ==> players[j].wagered <= players[i].wagered
  }

  predicate AllNeutral(players: seq<Player>) {
    forall i :: 0 <= i < |players| ==> players[i].change == Some(Neutral)
  }

  /** The username mask, which in this version reveals the whole name. */
  function MaskUsername(name: string): (shown: string)
    ensures |shown| == |name|
    ensures forall i :: 0 <= i < |name| ==> shown[i] == name[i]
  {
    name
  }

  /** The sole "real" Betstrike snapshot, ranks 1 to 5 (the first name is a placeholder). */
  const BetstrikeRealData: seq<Player> := [
    Player(1, "player_01", 3660, 500, Some(Neutral)),
    Player(2, "angelofdeath", 1803, 250, Some(Neutral)),
    Player(3, "Boatmom", 1670, 125, Some(Neutral)),
    Player(4, "Omixboat", 1157, 75, Some(Neutral)),
    Player(5, "Optimnob", 731, 50, Some(Neutral))
  ]

  /** The region-keyed record of static leaderboards. */
  const LeaderboardData: map<Region, seq<Player>> := map[Global := BetstrikeRealData]

  /** Juice placeholders: no names, nothing wagered, prizes and positions kept. */
  const JuicePlayers: seq<Player> := [
    Player(1, "", 0, 250, Some(Neutral)),
    Player(2, "", 0, 150, Some(Neutral)),
    Player(3, "", 0, 50, Some(Neutral)),
    Player(4, "", 0, 25, Some(Neutral)),
    Player(5, "", 0, 15, Some(Neutral)),
    Player(6, "", 0, 10, Some(Neutral))
  ]

  lemma BetstrikeDataOrdered()
    ensures |BetstrikeRealData| == 5
    ensures RanksFromOne(BetstrikeRealData) && RanksUnique(BetstrikeRealData)
    ensures WageredNonIncreasing(BetstrikeRealData)
    ensures PrizesNonIncreasing(BetstrikeRealData)
    ensures AllNeutral(BetstrikeRealData)
  {
    var d := BetstrikeRealData;
    assert d[0].wagered >= d[1].wagered >= d[2].wagered >= d[3].wagered >= d[4].wagered;
    assert d[0].prize >= d[1].prize >= d[2].prize >= d[3].prize >= d[4].prize;
    RanksFromOneAreUnique(d);
  }

  lemma LeaderboardDataIsBetstrike()
    ensures Global in LeaderboardData
    ensures LeaderboardData[Global] == BetstrikeRealData
    ensures LeaderboardData.Keys == {Global}
  {
  }

  lemma JuicePlayersArePlaceholders()
    ensures |JuicePlayers| == 6
    ensures RanksFromOne(JuicePlayers) && RanksUnique(JuicePlayers)
    ensures PrizesNonIncreasing(JuicePlayers)
    ensures AllNeutral(JuicePlayers)
    ensures forall i :: 0 <= i < |JuicePlayers| ==>
              JuicePlayers[i].username == "" && JuicePlayers[i].wagered == 0
  {
    RanksFromOneAreUnique(JuicePlayers);
  }
}
