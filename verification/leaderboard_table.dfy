/** The runner-up table (components/LeaderboardTable.tsx): which rows are
    shown, the show-all toggle, and what each cell holds. */
module LeaderboardTable {
  import opened Types
  import opened Text
  import opened Display

  /** Players whose rank is at most this sit on the podium instead. */
  const PodiumRanks: int := 3
  /** Rows shown while the table is collapsed. */
  const CollapsedRows: nat := 7

  /** `players.filter(p => p.rank > 3)`. */
  function RemainingPlayers(players: seq<Player>): (r: seq<Player>)
    ensures |r| <= |players|
    ensures forall p :: p in r <==> p in players && p.rank > PodiumRanks
    decreases |players|
  {
    if |players| == 0 then []
    else
      var rest := RemainingPlayers(players[1..]);
      assert forall p :: p in players <==> p == players[0] || p in players[1..];
      if players[0].rank > PodiumRanks then [players[0]] + rest else rest
  }

  /** Filtering keeps order: it distributes over concatenation, so a player
      before another in the input is before it in the output. */
  lemma {:induction false} RemainingDistributes(a: seq<Player>, b: seq<Player>)
    ensures RemainingPlayers(a + b) == RemainingPlayers(a) + RemainingPlayers(b)
    decreases |a|
  {
    if |a| > 0 {
      assert (a + b)[1..] == a[1..] + b;
      RemainingDistributes(a[1..], b);
    } else {
      assert a + b == b;
    }
  }

  /** A list with no podium ranks passes through whole; a list of only
      podium ranks leaves nothing. */
  lemma {:induction false} RemainingExtremes(players: seq<Player>)
    ensures (forall i :: 0 <= i < |players| ==> players[i].rank > PodiumRanks) ==>
              RemainingPlayers(players) == players
    ensures (forall i :: 0 <= i < |players| ==> players[i].rank <= PodiumRanks) ==>
              RemainingPlayers(players) == []
    decreases |players|
  {
    if |players| > 0 {
      RemainingExtremes(players[1..]);
      assert players == [players[0]] + players[1..];
    }
  }

  /** `showAll ? remaining : remaining.slice(0, 7)`. */
  function VisiblePlayers(remaining: seq<Player>, showAll: bool): (r: seq<Player>)
    ensures r <= remaining
    ensures showAll ==> r == remaining
    ensures !showAll ==> |r| == if |remaining| < CollapsedRows then |remaining| else CollapsedRows
  {
    if showAll then remaining
    else if |remaining| < CollapsedRows then remaining
    else remaining[..CollapsedRows]
  }

  /** The "View All" button is rendered only when rows could be hidden. */
  predicate ShowToggle(remaining: seq<Player>) {
    |remaining| > CollapsedRows
  }

  /** The button's click handler. */
  function Toggle(showAll: bool): (r: bool)
    ensures r != showAll
  {
    !showAll
  }

  /** Two clicks restore the original setting. */
  lemma ToggleTwice(showAll: bool)
    ensures Toggle(Toggle(showAll)) == showAll
  {
  }

  /** The button's caption. */
  function ToggleCaption(showAll: bool): string {
    if showAll then "Collapse" else "View All Competitors"
  }

  /** Collapsing hides rows exactly when the toggle is offered, so a hidden
      row is always one click away; without the toggle every row shows. */
  lemma ToggleExactlyWhenRowsHidden(remaining: seq<Player>, showAll: bool)
    ensures VisiblePlayers(remaining, false) != remaining <==> ShowToggle(remaining)
    ensures !ShowToggle(remaining) ==> VisiblePlayers(remaining, showAll) == remaining
    ensures VisiblePlayers(remaining, Toggle(false)) == remaining
  {
    if ShowToggle(remaining) {
      assert |VisiblePlayers(remaining, false)| < |remaining|;
    }
  }

  /** The movement marker beside a rank. */
  datatype ChangeIcon = TrendingUp | TrendingDown | Minus

  /** `getChangeIcon`: up and down have their own icons; any other value,
      including an absent one, shows a dash. */
  function GetChangeIcon(change: Option<Change>): (icon: ChangeIcon)
    ensures icon == TrendingUp <==> change == Some(Up)
    ensures icon == TrendingDown <==> change == Some(Down)
    ensures icon == Minus <==> change != Some(Up) && change != Some(Down)
  {
    if change == Some(Up) then TrendingUp
    else if change == Some(Down) then TrendingDown
    else Minus
  }

  /** The rank cell: single-digit ranks get a leading "0". */
  function RankLabel(rank: int): (s: string)
    ensures rank < 10 ==> s == "0" + IntToString(rank)
    ensures 10 <= rank ==> s == NatToDecimal(rank)
    ensures 0 <= rank < 100 ==> |s| == 2
  {
    if rank < 10 then "0" + IntToString(rank) else IntToString(rank)
  }

  /** For every non-negative rank the label is the two-digit padding the
      countdown uses, and it reads back as the rank. */
  lemma RankLabelIsTwoDigits(rank: nat)
    ensures RankLabel(rank) == TwoDigits(rank)
    ensures IsNumeral(RankLabel(rank)) && ParseDecimal(RankLabel(rank)) == rank
  {
    if rank < 10 {
      assert NatToDecimal(rank) == [DigitChar(rank)];
      assert PadStart(NatToDecimal(rank), 2, '0') == "0" + NatToDecimal(rank);
    }
  }

  /** The prize column: the formatted amount (with a trophy on Betstrike)
      for a positive prize, else a dash. */
  datatype PrizeCell = Amount(text: string, trophy: bool) | Dash

  function PrizeCellFor(prize: int, variant: Variant, currency: CurrencyFormatter): (c: PrizeCell)
    ensures c.Amount? <==> prize > 0
    ensures c.Amount? ==> c.text == FormatValue(variant, prize, currency)
    ensures c.Amount? ==> (c.trophy <==> variant == Betstrike)
  {
    if prize > 0 then Amount(FormatValue(variant, prize, currency), variant == Betstrike) else Dash
  }

  /** The wagered column exists only on Betstrike. */
  predicate ShowWagered(variant: Variant) {
    variant == Betstrike
  }

  /** The prize column's heading. */
  function PrizeHeader(variant: Variant): (h: string)
    ensures h == "Coins" <==> variant == Juice
    ensures variant == Betstrike ==> h == "Prize"
  {
    if variant == Juice then "Coins" else "Prize"
  }

  /** Everything one row shows. */
  datatype Row = Row(
    key: int,
    rankLabel: string,
    icon: ChangeIcon,
    initial: char,
    name: ShownName,
    wagered: Option<string>,
    prize: PrizeCell)

  function RenderRow(p: Player, variant: Variant, currency: CurrencyFormatter): (row: Row)
    ensures row.key == p.rank
    ensures row.rankLabel == RankLabel(p.rank) && row.icon == GetChangeIcon(p.change)
    ensures row.name == NameCell(p.username)
    ensures row.prize == PrizeCellFor(p.prize, variant, currency)
    ensures row.name.Masked? <==> 0 < |p.username|
    ensures row.initial == if 0 < |p.username| then p.username[0] else '-'
    ensures row.wagered.Some? <==> variant == Betstrike
    ensures row.wagered.Some? ==> row.wagered.value == FormatValue(variant, p.wagered, currency)
    ensures row.prize.Dash? <==> p.prize <= 0
  {
    Row(p.rank,
        RankLabel(p.rank),
        GetChangeIcon(p.change),
        if 0 < |p.username| then p.username[0] else '-',
        NameCell(p.username),
        if ShowWagered(variant) then Some(FormatValue(variant, p.wagered, currency)) else None,
        PrizeCellFor(p.prize, variant, currency))
  }

  /** The whole table as rendered for one `showAll` setting. */
  datatype TableView = TableView(
    prizeHeader: string,
    wageredColumn: bool,
    rows: seq<Row>,
    toggle: Option<string>)

  function RenderTable(players: seq<Player>, variant: Variant, showAll: bool,
                       currency: CurrencyFormatter): (v: TableView)
    ensures v.wageredColumn <==> variant == Betstrike
    ensures v.prizeHeader == PrizeHeader(variant)
    ensures v.toggle.Some? ==> v.toggle.value == ToggleCaption(showAll)
    ensures !showAll ==> |v.rows| == (if |RemainingPlayers(players)| < CollapsedRows
                                      then |RemainingPlayers(players)| else CollapsedRows)
    ensures v.toggle.Some? <==> |RemainingPlayers(players)| > CollapsedRows
    ensures |v.rows| <= |RemainingPlayers(players)|
    ensures showAll ==> |v.rows| == |RemainingPlayers(players)|
    ensures forall i :: 0 <= i < |v.rows| ==>
              v.rows[i] == RenderRow(RemainingPlayers(players)[i], variant, currency)
  {
    var remaining := RemainingPlayers(players);
    var visible := VisiblePlayers(remaining, showAll);
    TableView(
      PrizeHeader(variant),
      ShowWagered(variant),
      seq(|visible|, i requires 0 <= i < |visible| => RenderRow(visible[i], variant, currency)),
      if ShowToggle(remaining) then Some(ToggleCaption(showAll)) else None)
  }
}
