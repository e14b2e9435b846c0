/** Properties that hold between the parts: the datasets with the service,
    and the podium with the runner-up table. */
module Composition {
  import opened Types
  import Constants
  import JuiceApi
  import LeaderboardTable
  import Podium
  import Display

  /** The static Juice placeholders carry the mock list's prizes, rank by rank. */
  lemma JuicePrizesMatchMock()
    ensures |Constants.JuicePlayers| == |JuiceApi.MockJuiceLeaderboard()|
    ensures forall i :: 0 <= i < |Constants.JuicePlayers| ==>
              Constants.JuicePlayers[i].rank == JuiceApi.MockJuiceLeaderboard()[i].rank
              && Constants.JuicePlayers[i].prize == JuiceApi.MockJuiceLeaderboard()[i].prize
  {
  }

  /** On a list ranked 1, 2, 3, ... in order, the table's candidate rows
      are exactly the entries after the first three, in order. */
  lemma {:induction false} RunnersUpFollowPodium(players: seq<Player>)
    requires Constants.RanksFromOne(players)
    requires 3 <= |players|
    ensures LeaderboardTable.RemainingPlayers(players) == players[3..]
  {
    var top, rest := players[..3], players[3..];
    assert players == top + rest;
    LeaderboardTable.RemainingDistributes(top, rest);
    assert forall i :: 0 <= i < |top| ==> top[i].rank <= LeaderboardTable.PodiumRanks;
    LeaderboardTable.RemainingExtremes(top);
    assert forall i :: 0 <= i < |rest| ==> rest[i].rank == players[i + 3].rank;
    LeaderboardTable.RemainingExtremes(rest);
  }

  /** So the podium and the table split such a list exactly: the podium
      renders from the first three entries alone and the table's candidate
      rows are all the others. No player is shown twice and none is
      dropped. */
  lemma PodiumAndTablePartition(players: seq<Player>, variant: Variant,
                                currency: Display.CurrencyFormatter)
    requires Constants.RanksFromOne(players)
    requires 3 <= |players|
    ensures Podium.RenderPodium(players, variant, currency).Some?
    ensures Podium.RenderPodium(players, variant, currency)
            == Podium.RenderPodium(players[..3], variant, currency)
    ensures LeaderboardTable.RemainingPlayers(players) == players[3..]
  {
    RunnersUpFollowPodium(players);
    Podium.OnlyTopThreeShown(players, variant, currency);
  }

  /** With fewer than three entries ranked from 1, nobody is shown at all:
      the podium renders nothing and every entry is a podium rank. */
  lemma FewerThanThreeShowsNobody(players: seq<Player>, variant: Variant,
                                  currency: Display.CurrencyFormatter)
    requires Constants.RanksFromOne(players)
    requires |players| < 3
    ensures Podium.RenderPodium(players, variant, currency).None?
    ensures LeaderboardTable.RemainingPlayers(players) == []
  {
    LeaderboardTable.RemainingExtremes(players);
  }

  /** When the service falls back, the page shows the mock list: a full
      podium and three runner-up rows, with no toggle. */
  lemma FallbackRendersWholeMock(outcome: JuiceApi.FetchOutcome, variant: Variant,
                                 showAll: bool, currency: Display.CurrencyFormatter)
    requires JuiceApi.RequestLeaderboard(outcome).Failure?
    ensures var players := JuiceApi.FetchJuiceLeaderboard(outcome);
            && Podium.RenderPodium(players, variant, currency).Some?
            && LeaderboardTable.RemainingPlayers(players) == players[3..]
            && LeaderboardTable.RenderTable(players, variant, showAll, currency).toggle.None?
            && |LeaderboardTable.RenderTable(players, variant, showAll, currency).rows| == 3
  {
    var players := JuiceApi.FetchJuiceLeaderboard(outcome);
    PodiumAndTablePartition(players, variant, currency);
  }
}
