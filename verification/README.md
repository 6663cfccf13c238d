# TONgueBOX front-end core, modelled in Dafny

TONgueBOX is a Telegram Mini App. Its centre is a weighted spinner. Each
player's weight becomes a number of coloured squares, about fifty in all. The
squares are shuffled into a strip that is drawn ten times side by side. A spin
slides the strip so that a square of the chosen winner stops under the centre
marker, and then the winner is revealed. Around the spinner the app has several
smaller pieces of state logic:

- a nesting loading overlay;
- the lobby page: its code, its player list and the ready toggles;
- the home page's six-digit join-code entry;
- a server-side client that relays requests to the backend and wraps every
  failure as an `ApiError`;
- the coins actions that read the relayed reply.

The model follows the code's branches, constants and messages.

| file | module | what it models |
|---|---|---|
| `js.dfy` | `Js` | JavaScript pieces used everywhere: `null`/`undefined` as `Option`, string truthiness and `\|\|`, decimal formatting, `parseInt` |
| `arith.dfy` | `Arith` | facts about multiplication, division and remainder that the proofs need spelled out |
| `types.dfy` | `Types` | players, unnumbered slots and numbered squares; the squares of one player |
| `square_counts.dfy` | `SquareCounts` | how weights become square counts: rounding, the min-1 rule, the rescale, the stable descending-weight top-up |
| `square_layout.dfy` | `SquareLayout` | expanding counts into slots, the Fisher-Yates shuffle driven by random draws, numbering, `generateSquares` as a whole |
| `landing.dfy` | `Landing` | the ten-copy strip and `calculateSpinPosition`: the set index, the landing point, the animation time |
| `spin_session.dfy` | `SpinSession` | `handleSpin`, its three timers, `handleTryAgain`, the session invariant, and the stale-reveal finding |
| `spinner_view.dfy` | `SpinnerView` | per-player count and percentage, colour classes, the main button's label, enablement and action |
| `global_loader.dfy` | `GlobalLoader` | the `show` / `hide` / `setMessage` reducers of the loading overlay |
| `lobby.dfy` | `Lobby` | the lobby code, the initial player list, `toggleReady`, `allReady` |
| `join_code.dfy` | `JoinCode` | sanitising, the modal's keys, paste and backspace, the six slots, submit and close |
| `json_value.dfy` | `JsonValue` | parsed JSON values with property access, truthiness and `??` |
| `backend_client.dfy` | `BackendClient` | `serverFetch`: URL join, headers, response data, error classification; the proxy route's GET relay |
| `coins.dfy` | `Coins` | `getCoins` and `fetchCoins` on the relayed reply |

## Modelling choices

- **Inputs instead of effects.** Each `Math.random()` draw is a `real` argument
  in [0, 1). The container width read from the DOM is an `Option<nat>` argument.
  What `fetch` does is an `Outcome` argument.
- **Exact arithmetic.** All arithmetic is exact.
  - `Math.round(w / T * 50)` is written as `(100 w + T) / (2 T)`.
  - The rescale `Math.floor(c * (50 / t))` is written as `(50 c) / t`.
  - Positions and times are reals.
- **`NaN`.** It appears as `None`. This covers `parseInt` without digits and
  the position for an empty strip.
- **Timers.** `setTimeout` callbacks are records in a pending list. Any
  pending record may fire next, so every order the clock allows is covered.
  Each record keeps what its closure captured, including the squares of the
  render that scheduled it.
- **The weight sort** is the stable sort of the runtime (`Array.prototype.sort`).
  The model uses an insertion sort over the positive-weight players in list
  order. It is proved sorted by descending weight, ties in list order, and to
  keep exactly those players.

Where the description of the system and the code disagree, the model follows
the code:

- **The total is not always 50.**
  - The top-up runs only when the rounded total exceeds 50. With six equal
    weights the total is 48 (`SquareCounts.SixEqualWeightsExample`).
  - With 51 to 100 equal weights every player keeps one square, so the total
    is the number of players (`SquareCounts.ManyEqualWeights`).
  - In the rescale branch the total is exactly `max(50, rescaled total)`
    (`SquareCounts.FinalTotal`).
- **The five mock weights.** The weights 40, 15, 1, 10, 30 end at
  21, 8, 1, 4, 16, not at 20, 7, 1, 5, 15.

## Model

| member | source | states |
|---|---|---|
| `SquareCounts.RoundedCount` | src/components/WeightedSpinner/useSpinner.ts:18-27 | a player's first count is at least 1 exactly when its weight is positive, and never above 50 |
| `SquareCounts.RoundedCountsFacts` | src/components/WeightedSpinner/useSpinner.ts:14-27 | after rounding against the total weight, positive-weight players have at least one square, weight-0 players none, nobody more than 50 |
| `SquareCounts.RescaledCount` | src/components/WeightedSpinner/useSpinner.ts:39-43 | the rescale never raises a count, keeps positive-weight players at one or more, leaves weight-0 players untouched |
| `SquareCounts.RescaleNeverIncreases` | src/components/WeightedSpinner/useSpinner.ts:36-43 | over the whole list: no count increases, the min-1 rule survives, weight-0 players stay at 0 |
| `SquareCounts.SortIsSorted` | src/components/WeightedSpinner/useSpinner.ts:54-56 | the top-up order is sorted by descending weight with ties in list order (a stable sort) |
| `SquareCounts.SortKeepsEntries` | src/components/WeightedSpinner/useSpinner.ts:54-56 | sorting keeps exactly the entries it was given |
| `SquareCounts.TopUpOrderFacts` | src/components/WeightedSpinner/useSpinner.ts:54-56 | the order holds exactly the positive-weight players, each with its own weight, sorted |
| `SquareCounts.TopUpEffect` | src/components/WeightedSpinner/useSpinner.ts:58-60 | the loop adds one square to each of the first min(difference, length) players of the order and nothing elsewhere; the sum grows by that amount |
| `SquareCounts.ShortfallBelowPlayers` | src/components/WeightedSpinner/useSpinner.ts:46-58 | after a rescale, the shortfall below 50 is smaller than the number of positive-weight players, so the loop's length guard never stops it |
| `SquareCounts.FinalTotal` | src/components/WeightedSpinner/useSpinner.ts:30-61 | at most 50 rounded squares are kept unchanged; otherwise the final total is max(50, rescaled total) |
| `SquareCounts.TopUpOfPlayer` | src/components/WeightedSpinner/useSpinner.ts:46-61 | a player gains a square in the top-up exactly when it is among the first `difference` entries of the order |
| `SquareCounts.TopUpAtMostOne` | src/components/WeightedSpinner/useSpinner.ts:54-60 | one player gains at most one square in the top-up, and only with a positive weight |
| `SquareCounts.TopUpNeverSkips` | src/components/WeightedSpinner/useSpinner.ts:54-60 | a positive-weight player that precedes a topped-up player is topped up too |
| `SquareCounts.TopUpByDescendingWeight` | src/components/WeightedSpinner/useSpinner.ts:37-61 | the top-up adds at most one square, only to positive-weight players, and never skips a heavier (or equally heavy, earlier) player for a lighter one |
| `SquareCounts.FinalCountsRepresentEveryone` | src/components/WeightedSpinner/useSpinner.ts:18-61 | in the final counts a player has a square exactly when its weight is positive |
| `SquareCounts.MockRounded` | src/components/WeightedSpinner/useSpinner.ts:18-27 | the weights 40, 15, 1, 10, 30 round to 21, 8, 1, 5, 16 |
| `SquareCounts.MockRescaled` | src/components/WeightedSpinner/useSpinner.ts:36-43 | their rounded total 51 overshoots, and the rescale gives 20, 7, 1, 4, 15 |
| `SquareCounts.MockTopUpOrder` | src/components/WeightedSpinner/useSpinner.ts:54-56 | their top-up order is players 1, 5, 2, 4, 3 |
| `SquareCounts.MockWeightsExample` | app/game/page.tsx:9-15 | the game page's mock weights end at 21, 8, 1, 4, 16 squares (total 50) |
| `SquareCounts.SixEqualWeightsExample` | src/components/WeightedSpinner/useSpinner.ts:30-36 | six equal weights give eight squares each and a total of 48: no top-up below the target |
| `SquareCounts.ManyEqualWeights` | src/components/WeightedSpinner/useSpinner.ts:36-52 | 51 to 100 equal weights give one square each and a total above 50 |
| `SquareCounts.SinglePlayer` | src/components/WeightedSpinner/useSpinner.ts:18-36 | a lone player of positive weight gets all 50 squares |
| `Types.SquaresOf` | src/components/WeightedSpinner/useSpinner.ts:166-168 | the winner's squares are exactly the squares carrying its id |
| `Types.SquaresOfInStripOrder` | src/components/WeightedSpinner/useSpinner.ts:166-168 | the filter keeps strip order: on a numbered strip the winner's squares have increasing numbers |
| `Types.CountIsMultiplicity` | src/components/weightedSpinner/index.tsx:46-48 | the number of a player's squares is the multiplicity of its id in the strip |
| `SquareLayout.ExpandLength` | src/components/WeightedSpinner/useSpinner.ts:64-78 | the unshuffled strip has as many slots as the counts add up to |
| `SquareLayout.ExpandMembers` | src/components/WeightedSpinner/useSpinner.ts:70-78 | every slot is a copy of some player whose count is positive |
| `SquareLayout.ExpandMultiplicity` | src/components/WeightedSpinner/useSpinner.ts:70-78 | with distinct ids, each player has exactly its count of slots |
| `SquareLayout.Pick` | src/components/WeightedSpinner/useSpinner.ts:83 | `Math.floor(u * n)` of a draw is an index below n |
| `SquareLayout.Shuffle` | src/components/WeightedSpinner/useSpinner.ts:80-88 | the Fisher-Yates loop returns a permutation of its input (same multiset of slots and of ids) |
| `SquareLayout.Stamp` | src/components/WeightedSpinner/useSpinner.ts:90-94 | each square's `squareIndex` is its position, and removing the number gives the slot back |
| `SquareLayout.UnstampStamp` | src/components/WeightedSpinner/useSpinner.ts:90-94 | numbering loses nothing: unnumbering the numbered strip is the identity |
| `SquareLayout.StampUnstamp` | src/components/WeightedSpinner/useSpinner.ts:90-94 | renumbering an already numbered strip changes nothing |
| `SquareLayout.GenerateSquares` | src/components/WeightedSpinner/useSpinner.ts:13-97 | the strip's length is the sum of the final counts; it is numbered by position; with distinct ids each player holds exactly its final count; every square copies a player of positive count |
| `SquareLayout.EveryPositivePlayerOnStrip` | src/components/WeightedSpinner/useSpinner.ts:18-78 | a player appears on the generated strip exactly when its weight is positive |
| `Landing.StripShape` | src/components/weightedSpinner/index.tsx:98-110 | the rendered strip is ten copies, position k showing square k mod n, and nothing for no squares |
| `Landing.CenterPosition` | src/components/WeightedSpinner/useSpinner.ts:105-111 | the marker sits at half the container width, 384 when the container is missing |
| `Landing.Rotations` | src/components/WeightedSpinner/useSpinner.ts:123 | the rotations lie in [3, 5) |
| `Landing.SetIndexThreeOrFour` | src/components/WeightedSpinner/useSpinner.ts:122-128 | the final set index is 3 or 4, so always below the ten copies |
| `Landing.SpinPosition` | src/components/WeightedSpinner/useSpinner.ts:100-146 | the translation is a number exactly when the strip is non-empty, and the time lies in [5000, 9000) |
| `Landing.TotalTimeUncapped` | src/components/WeightedSpinner/useSpinner.ts:140-143 | the 8000 ms cap is never reached: the time is 5000 + 2000 (rotations - 3) |
| `Landing.TotalTimeMonotone` | src/components/WeightedSpinner/useSpinner.ts:140-143 | more rotations never take less time |
| `Landing.LandsInTargetSquare` | src/components/WeightedSpinner/useSpinner.ts:126-138 | the point under the marker lies in [set * W + index * 64, set * W + index * 64 + 64) |
| `Landing.LandsOnTarget` | src/components/WeightedSpinner/useSpinner.ts:100-138 | the strip cell under the marker exists and shows the target square |
| `SpinSession.HandleSpin` | src/components/WeightedSpinner/useSpinner.ts:149-179 | ignored while spinning; alert and no change for an input outside 1..players; for a winner without squares an alert and a stopped spinner; otherwise spinning with one offset timer aimed at the winner |
| `SpinSession.Fire` | src/components/WeightedSpinner/useSpinner.ts:181-201 | the offset timer sets the position from the plan for its captured strip and schedules the completion after the plan's time; the completion stops spinning and schedules the reveal 500 ms later; the reveal sets and shows the winner; the squares and typed input never change |
| `SpinSession.HandleTryAgain` | src/components/WeightedSpinner/useSpinner.ts:205-210 | try again resets the position, winner, input and banner and nothing else |
| `SpinSession.PickedSquareIsWinners` | src/components/WeightedSpinner/useSpinner.ts:166-179 | the randomly picked square belongs to the winner and its number is its strip position |
| `SpinSession.RunInv` | src/components/WeightedSpinner/useSpinner.ts:149-215 | along any run, the strip stays numbered, one spin timer is in flight exactly while spinning, and every offset timer aims at a square of its winner |
| `SpinSession.SpinningIffInFlight` | src/components/WeightedSpinner/useSpinner.ts:149-201 | from the initial state, the spinner spins exactly when one spin is in flight, never more |
| `SpinSession.OffsetLandsOnWinner` | src/components/WeightedSpinner/useSpinner.ts:181-189 | applying the offset stops the strip with a square of the winner under the marker |
| `SpinSession.SpinEndsWithWinner` | src/components/WeightedSpinner/useSpinner.ts:149-201 | a valid spin and its three timers end stopped, with the requested winner shown |
| `SpinSession.StaleRevealDuringSpin` | src/components/WeightedSpinner/useSpinner.ts:192-201 | a spin started within 500 ms of the previous one's end is shown the previous winner while it spins |
| `SpinSession.HandleSpinCancellingReveal` | src/components/WeightedSpinner/useSpinner.ts:149-201 | a spin that drops the previous reveal leaves no reveal pending |
| `SpinSession.WithoutReveals` | src/components/WeightedSpinner/useSpinner.ts:196-199 | dropping reveals keeps every other timer and the spin count |
| `SpinSession.StepCancellingCalm` | src/components/WeightedSpinner/useSpinner.ts:149-210 | with the reveal dropped, every event keeps the invariant and no winner is shown while spinning |
| `Js.ParseInt` | src/components/WeightedSpinner/useSpinner.ts:152 | `NaN` for the empty string and for a lone sign; a leading digit gives a non-negative number; only a leading '-' gives a negative one |
| `Js.ParseIntOfDecimal` | src/components/WeightedSpinner/useSpinner.ts:152 | `parseInt` of a formatted integer gives the integer back |
| `SpinnerView.OccupancyOf` | src/components/weightedSpinner/index.tsx:46-52 | a player's displayed count is the number of squares with its id, at most the strip's length |
| `SpinnerView.Percentage` | src/components/weightedSpinner/index.tsx:49-52 | 0 without squares; otherwise the percentage rounded half up: 2t·p <= 200c + t < 2t·(p + 1) |
| `SpinnerView.OccupancyPercentageBounds` | src/components/weightedSpinner/index.tsx:49-52 | the percentage is within [0, 100], 0 without squares, 100 for a player owning them all |
| `SpinnerView.ColorClasses` | src/components/weightedSpinner/index.tsx:23-35 | the eight known colours get their class pair, anything else the gray pair |
| `SpinnerView.SwatchIsBackground` | src/components/weightedSpinner/index.tsx:59-62 | the swatch is the background class of the colour, gray for unknown colours |
| `SpinnerView.ButtonLabel` | src/components/weightedSpinner/index.tsx:149 | "SPINNING..." exactly while spinning; otherwise "TRY AGAIN" exactly when a winner is set; else "START SPIN" |
| `SpinnerView.ButtonDisabled` | src/components/weightedSpinner/index.tsx:140 | disabled while spinning; when still, enabled with a winner, and without one disabled exactly when the input is empty |
| `SpinnerView.ButtonAction` | src/components/weightedSpinner/index.tsx:139 | a click tries again exactly when a winner is set, and spins otherwise |
| `SpinnerView.LabelMatchesAction` | src/components/weightedSpinner/index.tsx:138-149 | on an enabled button, "START SPIN" means a spin and "TRY AGAIN" means try again |
| `SpinnerView.InFlightDisablesButton` | src/components/weightedSpinner/index.tsx:138-140 | in every session reachable from the start, the button is disabled while a spin is in flight, so a click never starts a second spin |
| `SpinnerView.EnabledSpinIsHandled` | src/components/weightedSpinner/index.tsx:138-140 | an enabled START SPIN click always changes the state or raises an alert |
| `SpinnerView.TryAgainRestoresStart` | src/components/weightedSpinner/index.tsx:114-150 | after try again the input is back, the banner gone, the label START SPIN and the button disabled until something is typed |
| `GlobalLoader.Idle` | src/hooks/useGlobalLoader.tsx:31 | the overlay starts inactive with count 0 and no message |
| `GlobalLoader.Show` | src/hooks/useGlobalLoader.tsx:33-42 | show opens a level and activates; a given message replaces the old, none keeps it |
| `GlobalLoader.Hide` | src/hooks/useGlobalLoader.tsx:44-52 | closing the last level resets to the initial state and drops the message; otherwise only the count drops |
| `GlobalLoader.SetMessage` | src/hooks/useGlobalLoader.tsx:54-56 | only the message changes |
| `GlobalLoader.RunInv` | src/hooks/useGlobalLoader.tsx:31-56 | any sequence of operations keeps count >= 0 and active iff count > 0 |
| `GlobalLoader.ReachableInv` | src/hooks/useGlobalLoader.tsx:31-56 | every state reachable from the initial one satisfies the invariant |
| `GlobalLoader.ShowsThenHides` | src/hooks/useGlobalLoader.tsx:33-52 | n shows then n hides restore the count and the activity |
| `GlobalLoader.BalancedIsInactive` | src/hooks/useGlobalLoader.tsx:33-52 | from the start, n shows and n hides leave the overlay inactive |
| `GlobalLoader.HideWhileIdle` | src/hooks/useGlobalLoader.tsx:44-49 | a hide while idle stays at count 0 |
| `GlobalLoader.ShowHide` | src/hooks/useGlobalLoader.tsx:33-52 | a hide undoes a show, except that the show's message stays while other levels are open |
| `GlobalLoader.OverlayMessage` | src/hooks/useGlobalLoader.tsx:84-94 | the message line appears only on an active overlay with a non-empty message |
| `GlobalLoader.ClosedOverlayIsBlank` | src/hooks/useGlobalLoader.tsx:44-52 | once every level is closed, no message is shown |
| `Lobby.PadEnd` | app/lobby/page.tsx:46 | padding reaches length max(n, len), keeps the string as a prefix, fills with the pad character |
| `Lobby.PadEndIdempotent` | app/lobby/page.tsx:46 | padding twice is padding once |
| `Lobby.LobbyCode` | app/lobby/page.tsx:46 | the given code (or 834219 when missing or empty), right-padded with '0' to six, never truncated |
| `Lobby.LongCodeUnchanged` | app/lobby/page.tsx:46 | a code of six or more characters is shown unchanged |
| `Lobby.NewPlayer` | app/lobby/page.tsx:54-60 | the added user's defaults: `user<id>`, then first name / username / "Player", not ready, emerald |
| `Lobby.InitialPlayers` | app/lobby/page.tsx:47-65 | the mock players, with the current user appended exactly when its id is absent |
| `Lobby.InitialPlayersContainUser` | app/lobby/page.tsx:47-65 | the current user is always listed, ids stay distinct, three or four players |
| `Lobby.ToggleReady` | app/lobby/page.tsx:69-76 | only the current user's player flips readiness, nothing else changes; no-op without a user id |
| `Lobby.ToggleTwice` | app/lobby/page.tsx:71-75 | toggling twice restores the list |
| `Lobby.ToggleMakesStartable` | app/lobby/page.tsx:69-78 | one toggle by a user makes the lobby startable iff there are two or more players, all others are ready and the user's own entries are not; the id 0 leaves the gate unchanged |
| `Lobby.TogglesKeepOthers` | app/lobby/page.tsx:69-76 | other players keep their state through any number of toggles |
| `Lobby.StartNeverEnabledAlone` | app/lobby/page.tsx:18-78 | with only the current user's toggle, the mock lobby never becomes startable |
| `JoinCode.DigitsOf` | app/page.tsx:84 | removing non-digits leaves only digits and never lengthens |
| `JoinCode.DigitsOfDigits` | app/page.tsx:84 | a string is unchanged by digit filtering exactly when it is all digits |
| `JoinCode.Sanitize` | app/page.tsx:83-86 | the code is all digits, at most six, a prefix of the input's digits |
| `JoinCode.SanitizeFixes` | app/page.tsx:84 | sanitising leaves exactly the codes of at most six digits unchanged |
| `JoinCode.SanitizeIdempotent` | app/page.tsx:84 | sanitising twice is sanitising once |
| `JoinCode.SanitizeIgnoresNonDigits` | app/page.tsx:84 | non-digits around the input do not change the code |
| `JoinCode.OpenModal` | app/page.tsx:68-71 | JOIN LOBBY shows the modal and keeps the code |
| `JoinCode.ChangeCode` | app/page.tsx:83-86 | typing stores a valid code (at most six digits) and leaves the modal's visibility alone |
| `JoinCode.CloseModal` | app/page.tsx:87-90 | closing hides the modal and clears the code |
| `JoinCode.SubmitRoute` | app/page.tsx:91-95 | submit navigates only for six characters, to `/lobby?code=` followed by the code |
| `JoinCode.SubmittedCodeShownInLobby` | app/page.tsx:91-95 | a submitted code reaches the lobby page and is displayed exactly as typed |
| `JoinCode.DisplayName` | app/page.tsx:17-19 | `@username` when there is one, else the first name, else "Guest" |
| `JoinCode.DropLast` | src/components/joinLobbyModal/index.tsx:63 | backspace removes the last character, and leaves an empty code empty |
| `JoinCode.BackspaceRemovesLast` | src/components/joinLobbyModal/index.tsx:63-64 | on a non-empty code, the backspace button removes exactly its last digit |
| `JoinCode.TypedInput` | src/components/joinLobbyModal/index.tsx:82-89 | typed input is sanitised, and the input blurs exactly when six digits are reached |
| `JoinCode.Paste` | src/components/joinLobbyModal/index.tsx:90-97 | paste replaces the code with the clipboard's first six digits only when there is at least one |
| `JoinCode.KeyDown` | src/components/joinLobbyModal/index.tsx:98-132 | Enter submits iff the code is full; Escape closes; a printable non-digit without meta, ctrl or alt is blocked |
| `JoinCode.BackspaceFallback` | src/components/joinLobbyModal/index.tsx:109-121 | the deferred check shortens the code only when the input did not shrink |
| `JoinCode.Slots` | src/components/joinLobbyModal/index.tsx:44-57 | six slots, slot i showing the i-th character or a dot |
| `JoinCode.FilledSpellsCode` | src/components/joinLobbyModal/index.tsx:44-57 | reading the filled slots in order spells the code |
| `JoinCode.JoinEnabled` | src/components/joinLobbyModal/index.tsx:142-143 | Join is enabled exactly when submit would navigate |
| `JoinCode.ReachableCodesValid` | app/page.tsx:80-96 | whatever is typed, pasted or deleted, the code is at most six digits, and a submitted one is shown unchanged in the lobby |
| `BackendClient.BackendUrl` | src/lib/backendClient.ts:5 | the configured URL, `http://localhost:5256` when unset or empty |
| `BackendClient.TrimTrailingSlash` | src/lib/backendClient.ts:25 | at most one trailing slash is removed |
| `BackendClient.TrimLeadingSlash` | src/lib/backendClient.ts:25 | at most one leading slash is removed |
| `BackendClient.RequestUrl` | src/lib/backendClient.ts:23-25 | an `http` path is used as is; otherwise base and path are joined by one slash |
| `BackendClient.JoinIgnoresBoundarySlashes` | src/lib/backendClient.ts:23-25 | the join gives the same URL whether the base ends with a slash, the path starts with one, both or neither |
| `BackendClient.RequestHeaders` | src/lib/backendClient.ts:31-34 | caller headers are kept and override the default `accept: application/json` |
| `BackendClient.ResponseData` | src/lib/backendClient.ts:42-49 | JSON content is parsed, other content read as text, `null` when reading fails |
| `BackendClient.GenericMessage` | src/lib/backendClient.ts:75-81 | the thrown message or "Unknown error", with a non-empty string code in parentheses |
| `BackendClient.Classify` | src/lib/backendClient.ts:62-84 | an abort is a 504 timeout; an `ApiError` passes with its URL filled in if missing; anything else is a 500 |
| `BackendClient.ServerFetch` | src/lib/backendClient.ts:18-88 | the result is a success exactly for a 2xx response, with its status, data and the request URL |
| `BackendClient.FailureClassification` | src/lib/backendClient.ts:51-84 | every failure carries a URL; its status is the response's, 504, the `ApiError`'s, or 500, case by case |
| `Coins.CoinsField` | src/actions/coins.ts:33 | the first of `coins`, `amount`, `value` that is neither missing nor null |
| `Coins.GetCoins` | src/actions/coins.ts:23-38 | a number only from a 2xx reply that is a number or holds one in the first non-null field |
| `Coins.CoinsShapes` | src/actions/coins.ts:30-34 | the three accepted shapes return their number |
| `Coins.CoinsPrecedence` | src/actions/coins.ts:33-34 | `coins` beats `amount`, a null `coins` falls through, a numeric string is not accepted |
| `Coins.ErrorSourceOf` | src/actions/coins.ts:9-11 | the error text comes from the body's `error`, else the whole body, else the status |
| `Coins.FetchCoins` | src/actions/coins.ts:4-20 | the alert for a rejection, a 2xx reply and an error reply |
| `Coins.RelayedFailure` | src/actions/coins.ts:23-38 | a backend failure relayed by the proxy never yields coins, and an error alert quotes its message |
| `Coins.TimeoutAlert` | src/lib/backendClient.ts:66-70 | a timed-out backend request is reported as "Backend request timeout" |
| `Coins.RelayedCoins` | src/actions/coins.ts:28-34 | a backend `{"coins": n}` reaches `getCoins` as n, for every 2xx status except 204 and 205, which cannot carry a body |
| `Coins.RelayedNullBodySuccess` | src/actions/coins.ts:9-12 | a backend 204 or 205 yields no coins through the proxy, and the alert quotes "Unknown proxy error" |

The proxy route's GET relay, `BackendClient.ProxyGet`, models lines 10-29 of
`app/api/proxy/[...path]/route.ts`. Its contract states the following:

- A success is relayed with its status and data.
- A 204 or 205 success becomes 500 `{"error": "Unknown proxy error"}`.
  A JSON reply cannot carry those statuses, so building it throws.
- A failure is relayed with its own status, as `{error, data}`.

`Coins.RelayedFailure`, `Coins.TimeoutAlert`, `Coins.RelayedCoins` and
`Coins.RelayedNullBodySuccess` build on it.

## Left out

- IEEE-754 rounding and overflow. Weights, counts and positions are exact
  integers and reals, and JSON numbers are exact reals.
- Where `Math.random()` comes from. Its draws are arguments in [0, 1).
- The DOM. The container width is an argument, and rendering and styling are
  not modelled.
- The randomised CSS transition duration (index.tsx:93) only affects how the
  strip animates, so it is not part of the model.
- The 50 ms blur timer of the join input (joinLobbyModal:85-88) touches focus
  only.
- Native typing and backspace in the hidden input are not modelled. They
  reach the model as raw input values passed to `TypedInput`.
- `parseInt` for whitespace, hexadecimal, exponent and non-ASCII digit forms.
  A numeric `<input>` yields an optional sign and digits, and only that is
  modelled.
- `Lobby.LobbyCode`: string lengths count Unicode scalar values, not the
  UTF-16 code units JavaScript counts. A character outside the Basic
  Multilingual Plane, such as an emoji, has length 2 there and 1 here, so
  `?code=😀` is padded to `😀0000` by the page and to `😀00000` by the model.
- `JoinCode.KeyDown`: for the same reason, a key outside the Basic
  Multilingual Plane has `e.key.length` 2 in the page, which does not block
  it, while the model sees length 1 and blocks it.
- `colorMap` keys inherited from `Object.prototype`, such as `constructor`.
  They are treated as unknown colours.
- Timing itself. A timer's delay is recorded but any pending timer may fire
  next. The invariants hold in every order, so they also hold in the real one.
- `SpinSession.Step` lets the winner input change at any time. The page
  disables it while spinning and hides it when there is a winner, so the model
  allows more than the page does.
- Regenerated squares are assumed numbered by position, as `generateSquares`
  numbers them.
- A spin with an empty strip would give `NaN`. It is modelled as `None` and is
  unreachable, because `handleSpin` stops first.
- The network, `AbortController`, `clearTimeout` and the Telegram bridge.
  - A request's outcome is an argument: a response with a status, a status text
    and a body, or a thrown value.
  - Reading the body is given as optional parsed JSON and optional text.
- `options.headers` given as a `Headers` object or an array of pairs is not
  modelled. Only the plain-object form is.
- Header names are compared as the object keys they are, with case mattering.
- The proxy's POST handler and its logging are not modelled.
- `BackendClient.ProxyGet`: a failure whose status is a null body status
  (304, say) makes the reply built inside the `catch` block throw, and that
  error leaves the handler. The model answers with the failure's status and
  `{error, data}` instead, because what the framework then sends is outside
  this code.
- `JSON.stringify` in `fetchCoins` is not modelled. The alert records which
  value is stringified, not the resulting text.
- `String(err)` for a thrown non-`Error` value is an argument of
  `Coins.Rejected`.
- Property access on JSON values other than objects gives `undefined`. None of
  the keys read here exists on a prototype.
- The game page's own `displayName` (app/game/page.tsx:19-21) is left out.
  It is the same expression that `JoinCode.DisplayName` models.
- Navigation and the Telegram back button are not modelled. A submitted code
  is modelled as the route string.
- `SquareCounts.RoundedCounts`, `SquareCounts.RescaledCounts`,
  `SquareCounts.FinalCounts` and `SquareCounts.TopUp` state only their shape in
  their own contracts. What they compute is stated by the lemmas listed above.

## Findings

| source | as written | input that shows it | evidently intended | confidence | as-written member | corrected member |
|---|---|---|---|---|---|---|
| src/components/WeightedSpinner/useSpinner.ts:192-201 | the 500 ms reveal timer of a finished spin is never cancelled, and `handleSpin` only checks `isSpinning` | a spin for player 1 runs to completion; TRY AGAIN is not needed because the winner is not yet shown; within 500 ms a second spin starts; the old reveal fires during the new spin | no winner banner while the strip spins | not executed | `SpinSession.StaleRevealDuringSpin` | `SpinSession.StepCancellingCalm` |
