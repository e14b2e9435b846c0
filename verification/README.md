# Boat leaderboard page — Dafny model

A model of the logic inside a promotional leaderboard landing page: the
competition countdown, the service that fetches the Juice leaderboard and
falls back to a mock list, the hook that keeps the fetched list in React
state, and the rules by which the podium and the runner-up table choose and
label what they show. Everything is pure functions over immutable
datatypes; the hook is a record-to-record transition.

Modules, one per source file: `Types` (types.ts), `Constants`
(constants.ts), `Countdown` (components/CountdownTimer.tsx), `JuiceApi`
(services/juiceApi.ts), `LeaderboardHook` (hooks/useJuiceLeaderboard.ts),
`LeaderboardTable` (components/LeaderboardTable.tsx), `Podium`
(components/Podium.tsx). `Text` holds integer-to-decimal rendering and
`padStart`; `Display` holds the name cell and `formatValue`, which the
table and the podium both use; `Composition` states what holds between
the parts.

Inputs the page reads from its environment are parameters: the current
time and the countdown target (integer milliseconds), the outcome of the
HTTP request (`JuiceApi.FetchOutcome`: a network error, or a status and a
body that either has a `players` array or makes the transform throw), the
settle time of each refresh, and the `FORMAT_CURRENCY` formatter (a
function-typed parameter, since `Intl.NumberFormat` is foreign code).

What the service and hook do, as the code stands:
- The service keeps no cache and has no in-flight guard. Every failure
  returns the fixed mock list. Stale data is kept only by the hook, and
  only when the fetch rejects, which the real service never does.
- Prizes are copied from the feed.
- Only a `players` array is read from the response body.
- The service does not sort and does not check that ranks are unique. It
  keeps the feed's order index by index (`JuiceApi.Normalize`), so an
  ascending feed stays ascending (`JuiceApi.NormalizePreservesRankOrder`).
- After a refresh, the players list is empty exactly when the feed answered
  ok with an empty `players` array (`JuiceApi.EmptyOnlyFromEmptyFeed`).

## Model

| member | source | states |
|---|---|---|
| Text.NatToDecimal | components/CountdownTimer.tsx:41 | `toString` of a non-negative integer: a non-empty string of digits with no leading zero, exactly one digit if and only if the value is below 10, at most two below 100 |
| Text.IntToString | components/LeaderboardTable.tsx:71 | `toString` of an integer below 10^21 in magnitude: the numeral for non-negative values, a minus sign followed by the numeral of the magnitude for negative ones |
| Text.PadStart | components/CountdownTimer.tsx:41 | the result is the input left-filled with the fill character to the target width, never truncated |
| Text.DecimalRoundTrip | components/CountdownTimer.tsx:41 | reading the decimal rendering of a number back gives that number |
| Text.TwoDigits | components/CountdownTimer.tsx:41 | a value below 100 is shown as exactly two digits; every value's cell reads back as the value; from 100 up it is the plain numeral |
| Countdown.CalculateTimeLeft | components/CountdownTimer.tsx:7-20 | all-zero once the target is reached or passed; otherwise days is the difference divided by 86400000; hours below 24, minutes and seconds below 60, nothing negative |
| Countdown.Reconstruction | components/CountdownTimer.tsx:13-16 | for a positive difference, days, hours, minutes and seconds add back up to the whole seconds remaining |
| Countdown.Uniqueness | components/CountdownTimer.tsx:13-16 | any well-formed clock face with the same whole seconds is the computed one |
| Countdown.NinetySecondsBefore | components/CountdownTimer.tsx:13-16 | ninety seconds before the target the result is 0 days, 0 hours, 1 minute, 30 seconds |
| Countdown.Display | components/CountdownTimer.tsx:41 | the four cells read back as the four fields; every cell is two characters except a day count of 100 or more, which is the plain numeral |
| Constants.MaskUsername | constants.ts:48-50 | the mask shows every character of the name unchanged |
| Constants.BetstrikeDataOrdered | constants.ts:26-32 | five entries ranked 1 to 5 with unique ranks, wagered and prize non-increasing, all neutral |
| Constants.LeaderboardDataIsBetstrike | constants.ts:34-36 | the record has the single key GLOBAL, mapped to the Betstrike data |
| Constants.JuicePlayersArePlaceholders | constants.ts:38-46 | six entries ranked 1 to 6, unique ranks, prizes non-increasing, every name empty and every wager 0 |
| JuiceApi.ToPlayer | services/juiceApi.ts:57-63 | rank, username, wagered and prize are copied; change is neutral |
| JuiceApi.Normalize | services/juiceApi.ts:57-63 | same length as the feed and each entry is the converted feed entry at the same index |
| JuiceApi.NormalizeLosesNothing | services/juiceApi.ts:57-63 | dropping the change marker recovers the feed exactly, and every marker is neutral |
| JuiceApi.NormalizePreservesRankOrder | services/juiceApi.ts:57-63 | a feed in strictly ascending rank order stays in that order |
| JuiceApi.RequestLeaderboard | services/juiceApi.ts:41-63 | succeeds exactly on an ok status with a players array, giving the converted array; a non-ok status fails with the status message; a network error fails with its message |
| JuiceApi.FetchJuiceLeaderboard | services/juiceApi.ts:40-71 | returns the converted feed when the request succeeds and the mock list whenever it fails |
| JuiceApi.MockJuiceLeaderboard | services/juiceApi.ts:74-83 | six entries ranked 1 to 6, all neutral, prizes and wagers non-increasing |
| JuiceApi.FailuresAreIndistinguishable | services/juiceApi.ts:64-70 | any two failures, of whatever kind, give the same result: the mock list |
| JuiceApi.BadStatusFallsBack | services/juiceApi.ts:50-52 | a non-ok status gives the mock list whatever the body holds |
| JuiceApi.EmptyOnlyFromEmptyFeed | services/juiceApi.ts:40-71 | the result is empty if and only if the feed answered ok with an empty players array |
| LeaderboardHook.InitialState | hooks/useJuiceLeaderboard.ts:19-22 | no players, loading, no error, never updated |
| LeaderboardHook.ErrorMessage | hooks/useJuiceLeaderboard.ts:31 | an Error's own message, otherwise 'Failed to fetch leaderboard' |
| LeaderboardHook.BeginRefresh | hooks/useJuiceLeaderboard.ts:26 | error is cleared before the fetch; players, loading and timestamp untouched |
| LeaderboardHook.CompleteRefresh | hooks/useJuiceLeaderboard.ts:27-34 | loading ends; success stores the data and the settle time; failure stores the message and keeps players and timestamp |
| LeaderboardHook.Refresh | hooks/useJuiceLeaderboard.ts:24-35 | after a refresh loading is false; success leaves error null; failure sets the message and keeps the stale players and timestamp |
| LeaderboardHook.LoadingNeverReturns | hooks/useJuiceLeaderboard.ts:32-34 | after any refresh loading is false, and once false it stays false |
| LeaderboardHook.StaleDataKept | hooks/useJuiceLeaderboard.ts:30-31 | any run of failed refreshes keeps the players and timestamp of the last success |
| LeaderboardHook.RefreshFromService | hooks/useJuiceLeaderboard.ts:27-29 | wired to the real service a refresh leaves no error, stores the service's list and stamps the time |
| LeaderboardHook.ServiceNeverErrors | hooks/useJuiceLeaderboard.ts:24-35 | from the initial state, any sequence of service refreshes leaves error null; after at least one, players and timestamp are the latest fetch's |
| Display.NameCell | components/LeaderboardTable.tsx:52-85 | the masked name is shown if and only if the username is non-empty, and it is the username itself; otherwise the placeholder |
| Display.FormatValue | components/LeaderboardTable.tsx:25 | Juice amounts are the plain integer string; Betstrike amounts are the currency formatter's output |
| LeaderboardTable.RemainingPlayers | components/LeaderboardTable.tsx:16 | a player is a candidate row if and only if it is in the list with rank above 3 |
| LeaderboardTable.RemainingDistributes | components/LeaderboardTable.tsx:16 | filtering distributes over concatenation, so the original order is kept |
| LeaderboardTable.RemainingExtremes | components/LeaderboardTable.tsx:16 | a list with all ranks above 3 passes whole; a list with all ranks at most 3 leaves nothing |
| LeaderboardTable.VisiblePlayers | components/LeaderboardTable.tsx:17 | the visible rows are a prefix of the candidates: all of them when showing all, otherwise the first min(7, count) |
| LeaderboardTable.Toggle | components/LeaderboardTable.tsx:119 | a click flips the show-all setting |
| LeaderboardTable.ToggleTwice | components/LeaderboardTable.tsx:119 | two clicks restore the setting |
| LeaderboardTable.ToggleExactlyWhenRowsHidden | components/LeaderboardTable.tsx:116-119 | collapsing hides rows if and only if the toggle is offered; without the toggle every candidate shows; one click from collapsed shows all |
| LeaderboardTable.GetChangeIcon | components/LeaderboardTable.tsx:19-23 | up gives the rising icon, down the falling icon, and every other value, absent included, the dash, each if and only if |
| LeaderboardTable.RankLabel | components/LeaderboardTable.tsx:71 | a rank below 10 gets a leading zero, otherwise the plain numeral; ranks 0 to 99 give two characters |
| LeaderboardTable.RankLabelIsTwoDigits | components/LeaderboardTable.tsx:71 | for non-negative ranks the label equals the countdown's two-digit padding and reads back as the rank |
| LeaderboardTable.PrizeCellFor | components/LeaderboardTable.tsx:99-106 | the formatted prize is shown if and only if the prize is positive, with a trophy exactly on Betstrike; otherwise a dash |
| LeaderboardTable.PrizeHeader | components/LeaderboardTable.tsx:26 | the heading is 'Coins' if and only if the variant is Juice, else 'Prize' |
| LeaderboardTable.RenderRow | components/LeaderboardTable.tsx:51-107 | the row is keyed by rank; its rank cell is the rank label, its icon the change icon, its name the name cell and its prize the prize cell of that player; its initial is the name's first character or '-'; the wagered cell exists exactly on Betstrike |
| LeaderboardTable.RenderTable | components/LeaderboardTable.tsx:12-128 | the prize header is the variant's heading; the wagered column exists exactly on Betstrike; the toggle exists exactly when there are more than 7 candidates and carries the caption for the current setting; a collapsed table has min(7, candidates) rows, an expanded one all of them; row i renders candidate i |
| Podium.PositionConfig | components/Podium.tsx:13-69 | position 1 gets the crown and gold, 2 the trophy and silver, 3 the medal and bronze, anything else the medal unstyled, each if and only if; the entrance delay is 0.2 s for position 1, 0.4 s for 3, otherwise 0 |
| Podium.PrizeText | components/Podium.tsx:161-162 | the Juice prize line is the integer followed by ' COINS'; the Betstrike line is the currency text alone |
| Podium.PodiumCard | components/Podium.tsx:12-168 | the card carries its position and that position's config, highlights only position 1, shows the name cell, the 'WAGERED' caption and the formatted amounts |
| Podium.RenderPodium | components/Podium.tsx:170-177 | nothing if and only if there are fewer than 3 entries; otherwise three cards at positions 2, 1, 3, each showing the entry at index position minus 1 |
| Podium.OnlyTopThreeShown | components/Podium.tsx:175-177 | entries from index 3 on do not affect the podium |
| Podium.PositionIgnoresRank | components/Podium.tsx:175-177 | lists that differ only in their entries' ranks give the same podium |
| Composition.JuicePrizesMatchMock | constants.ts:39-46 | the static Juice placeholders have the mock list's ranks and prizes, index by index |
| Composition.RunnersUpFollowPodium | components/LeaderboardTable.tsx:15-16 | on a list ranked 1, 2, 3, ... the candidate rows are exactly the entries after the first three |
| Composition.PodiumAndTablePartition | components/Podium.tsx:170-177 | on such a list the podium renders from the first three entries alone and the table's candidates are exactly the rest: nobody twice, nobody dropped |
| Composition.FewerThanThreeShowsNobody | components/Podium.tsx:171 | on a list ranked from 1 with fewer than 3 entries neither the podium nor the table shows anyone |
| Composition.FallbackRendersWholeMock | services/juiceApi.ts:64-70 | after a failed request the page shows a full podium and three runner-up rows with no toggle |

## Left out

- HTTP and JSON: the request, its headers and API key, and `response.json()` are replaced by the `FetchOutcome` input. The console logging in the `catch` block is left out.
- A feed entry that lacks a field: JavaScript copies `undefined` through without throwing. Here feed entries always have all four fields.
- Timers and React: the 30-second interval, the one-second countdown tick, effect clean-up, batched and asynchronous state updates, and overlapping refreshes. A run of the hook is a sequence of refreshes that each settle before the next begins.
- Clocks: `new Date()` and the parsing of the target date are replaced by integer-millisecond parameters.
- Countdown.CalculateTimeLeft: floating-point division is modelled as exact integer division. For positive integer differences of realistic size the two agree.
- Numbers: rank, wagered and prize are unbounded integers. JavaScript numbers are doubles: fractional values, the rounding of feed integers above 2^53 by `response.json()`, and the exponent notation `toString` uses from 10^21 up (for example "1e+21") are not modelled. `Text.IntToString` matches JavaScript only below 10^21 in magnitude, and this reaches the Juice amounts, the rank label and the status message.
- Text.IntToString: gives the plain numeral at every magnitude, where JavaScript switches to exponent notation from 10^21 up.
- JuiceApi.ToPlayer: copies feed integers exactly, where `response.json()` rounds those above 2^53.
- Strings: a string is a sequence of Unicode code points, not of UTF-16 code units. Only the row initial depends on the difference: for a username starting with a character outside the Basic Multilingual Plane, `charAt(0)` yields a lone high surrogate, while `LeaderboardTable.RenderRow` gives the whole character.
- LeaderboardTable.RenderRow: the initial is the first code point of the username, not its first UTF-16 code unit.
- Podium variant: the podium's own prop type is malformed (`'BETSTRIKE' | 'DUEL' | ;`); `Podium.RenderPodium` takes the two variants its cards accept, Betstrike and Juice, and models no `DUEL` variant.
- Sample data: the first username of the Betstrike sample list is an offensive word; the model stores the placeholder "player_01" in its place. No contract reads that username.
- Currency formatting: `FORMAT_CURRENCY` calls `Intl.NumberFormat`, which is locale data outside the program. It is a function parameter.
- Styling: the responsive `order` classes (first place first on small screens, the 2, 1, 3 order only from the `md` breakpoint up; the model gives document order), class strings, gradients, colours, animation timings other than the card delay, the optional `avatar` field, and the markup of every component.
- Other components: the bonus cards, the terms page, the hard-coded gang leaderboard and the two App shells hold no logic beyond markup.
