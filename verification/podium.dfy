/** The podium (components/Podium.tsx): the three cards for the first three
    entries of the list, and what each card shows. */
module Podium {
  import opened Types
  import opened Text
  import opened Display

  datatype PodiumIcon = Crown | Trophy | Medal

  /** The colour scheme of a card; `Unstyled` is the empty default config. */
  datatype Tone = Gold | Silver | Bronze | Unstyled

  /** The parts of a card's `config` that are not plain styling strings;
      `delayTenths` is the entrance delay in tenths of a second. */
  datatype CardConfig = CardConfig(icon: PodiumIcon, tone: Tone, delayTenths: nat)

  /** The `isFirst` / `isSecond` / `isThird` chain over the default config. */
  function PositionConfig(position: int): (c: CardConfig)
    ensures c.icon == Crown <==> position == 1
    ensures c.icon == Trophy <==> position == 2
    ensures c.icon == Medal <==> position != 1 && position != 2
    ensures c.tone == Gold <==> position == 1
    ensures c.tone == Silver <==> position == 2
    ensures c.tone == Bronze <==> position == 3
    ensures c.tone == Unstyled <==> position !in {1, 2, 3}
    ensures c.delayTenths == if position == 1 then 2 else if position == 3 then 4 else 0
  {
    if position == 1 then CardConfig(Crown, Gold, 2)
    else if position == 2 then CardConfig(Trophy, Silver, 0)
    else if position == 3 then CardConfig(Medal, Bronze, 4)
    else CardConfig(Medal, Unstyled, 0)
  }

  /** The caption above the wagered amount, the same for both variants. */
  const WagerLabel: string := "WAGERED"

  /** Everything one card shows. `highlighted` is the first-place light
      beam, spinning ring and sparkles. */
  datatype Card = Card(
    position: int,
    config: CardConfig,
    highlighted: bool,
    name: ShownName,
    wagerLabel: string,
    wagered: string,
    prize: string)

  const CoinsSuffix: string := " COINS"

  /** The prize line: the formatted amount, then " COINS" on Juice only. */
  function PrizeText(prize: int, variant: Variant, currency: CurrencyFormatter): (s: string)
    ensures variant == Juice ==> s == IntToString(prize) + CoinsSuffix
    ensures variant == Betstrike ==> s == currency(prize)
  {
    FormatValue(variant, prize, currency) + (if variant == Juice then CoinsSuffix else "")
  }

  function PodiumCard(player: Player, position: int, variant: Variant,
                      currency: CurrencyFormatter): (c: Card)
    ensures c.position == position && c.config == PositionConfig(position)
    ensures c.highlighted <==> position == 1
    ensures c.name == NameCell(player.username)
    ensures c.wagerLabel == WagerLabel
    ensures c.wagered == FormatValue(variant, player.wagered, currency)
    ensures c.prize == PrizeText(player.prize, variant, currency)
  {
    Card(position,
         PositionConfig(position),
         position == 1,
         NameCell(player.username),
         WagerLabel,
         FormatValue(variant, player.wagered, currency),
         PrizeText(player.prize, variant, currency))
  }

  /** Nothing for fewer than three entries; otherwise the cards for
      entries 1, 0, 2, in that document order, at positions 2, 1, 3. */
  function RenderPodium(players: seq<Player>, variant: Variant,
                        currency: CurrencyFormatter): (r: Option<seq<Card>>)
    ensures r.None? <==> |players| < 3
    ensures r.Some? ==> |r.value| == 3
    ensures r.Some? ==> r.value[0].position == 2 && r.value[1].position == 1 && r.value[2].position == 3
    ensures r.Some? ==> forall i :: 0 <= i < 3 ==>
              r.value[i] == PodiumCard(players[r.value[i].position - 1], r.value[i].position, variant, currency)
  {
    if |players| < 3 then None
    else Some([PodiumCard(players[1], 2, variant, currency),
               PodiumCard(players[0], 1, variant, currency),
               PodiumCard(players[2], 3, variant, currency)])
  }

  /** Only the first three entries matter: the rest never reach a card. */
  lemma OnlyTopThreeShown(players: seq<Player>, variant: Variant, currency: CurrencyFormatter)
    requires 3 <= |players|
    ensures RenderPodium(players, variant, currency) == RenderPodium(players[..3], variant, currency)
  {
  }

  /** Positions come from list order, not from the entries' ranks: two
      lists that differ only in the ranks of their entries render the same
      podium. */
  lemma PositionIgnoresRank(a: seq<Player>, b: seq<Player>, variant: Variant, currency: CurrencyFormatter)
    requires |a| == |b|
    requires forall i :: 0 <= i < |a| ==> a[i].(rank := 0) == b[i].(rank := 0)
    ensures RenderPodium(a, variant, currency) == RenderPodium(b, variant, currency)
  {
    if 3 <= |a| {
      forall i | 0 <= i < 3
        ensures a[i].username == b[i].username && a[i].wagered == b[i].wagered && a[i].prize == b[i].prize
      {
        assert a[i].(rank := 0) == b[i].(rank := 0);
      }
    }
  }
}
