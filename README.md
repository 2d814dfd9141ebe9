# BGG Random Game Selector — verified model of its selection logic

The BGG Random Game Selector is a userscript for BoardGameGeek. It adds a
"Random!" button that picks a game from the logged-in user's owned
collection and opens that game's page. The pick can be biased toward games
not played for a long time (recency bias), toward games played few times
(total-plays bias), or both. The game page then shows the "Selection Score"
the winner received.

This Dafny project models the decision logic of `BGGRandom.user.js`:

- `Scoring` (`scoring.dfy`): the time factor (whole days since the last play,
  floor division of milliseconds), the frequency factor `1 / (plays + 1)`,
  the random term `Math.random() * 0.1`, and the recency, total-plays and
  combined (`0.7 * time + 0.3 * frequency`) scores.
- `Selection` (`selection.dfy`): the three arg-max loops, written once and
  parameterised by the strategy, since they differ only in the score formula.
  Each starts at a best score of -1, replaces the best only on a strictly
  greater score (so the first maximum wins ties), and writes every new best
  to the `selectedGameScore` slot. Also the unbiased pick `floor(r * length)`.
- `Fetcher` (`fetcher.dfy`): the retry loop of `getUserBoardgames`, run over
  an injected sequence of HTTP statuses. 200 finishes, 202 waits and retries,
  and any other status is an error.
- `GamePage` (`game_page.dfy`): the `/\/boardgame\/(\d+)/` match used by
  `isGamePage` and `getGameIdFromUrl`, the lookup of the page's game in the
  cached collection, and the decision to show the stored score.
- `Orchestrator` (`orchestrator.dfy`): `main`. It stops when no user is
  logged in. It reuses the cached snapshot when that snapshot belongs to the
  current user, and otherwise fetches and overwrites the cache. It stops on an
  empty collection and dispatches on the two bias flags to exactly one
  procedure.
- `Games`, `Store`, `Wrappers`: game records, the cached snapshot, the
  `games.find` lookup, the two local-storage slots (a class whose fields the
  methods update), and an `Option` type standing in for `null`.

Injected inputs:

- Every call of `Math.random()` is a parameter `rand: nat -> Draw`. `Draw` is
  a real in [0, 1), and the k-th call of one run reads `rand(k)`.
- "Now" is an integer millisecond timestamp.
- The collection endpoint's responses are a sequence of status codes.
- The game list parsed from a 200 response is an input.

The score slot is left untouched when a biased loop selects nothing. The
time factor is negative for a date in the future, so the recency loop can
select nothing from a non-empty collection
(`Selection.FutureDateSelectsNothing`).

## Model

| member | source | states |
|---|---|---|
| `Scoring.TimeFactor` | BGGRandom.user.js:214-221 | 0 for a missing date; otherwise the unique `d` with `d` days <= now - lastPlayed < `d+1` days (floor); non-negative exactly when the date is not in the future |
| `Scoring.TimeFactorMonotonic` | BGGRandom.user.js:214-221 | an earlier last-played date never gives a smaller time factor |
| `Scoring.FrequencyFactor` | BGGRandom.user.js:228-230 | the factor lies in (0, 1] and is the reciprocal of plays + 1 |
| `Scoring.FrequencyFactorDecreasing` | BGGRandom.user.js:228-230 | more plays give a strictly smaller frequency factor |
| `Scoring.Perturbation` | BGGRandom.user.js:239 | `Math.random() * 0.1` lies in [0, 0.1) |
| `Scoring.RecencyScore` | BGGRandom.user.js:237-241 | the score lies in [time factor, time factor + 0.1) |
| `Scoring.TotalPlaysScore` | BGGRandom.user.js:248-252 | the score lies in [frequency factor, frequency factor + 0.1), hence in (0, 1.1) |
| `Scoring.CombinedScore` | BGGRandom.user.js:260-265 | the score lies in [0.7 time + 0.3 frequency, that + 0.1) |
| `Scoring.Score` | BGGRandom.user.js:237-265 | every strategy's score is its weighted factors raised by less than 0.1 |
| `Scoring.PastGameScoresAboveSentinel` | BGGRandom.user.js:237-265 | a game with no date or a date not in the future scores above -1 under every strategy |
| `Selection.FirstMax` | BGGRandom.user.js:272-286 | the loop's recurrence yields `None` iff every score is <= -1, and otherwise the first position of a maximal score that beats -1 |
| `Selection.FirstMaxComplete` | BGGRandom.user.js:272-286 | the first-maximum position is unique: any position with that property is the one `FirstMax` returns |
| `Selection.SelectBiasedGame` | BGGRandom.user.js:272-328 | the loop returns the game at `FirstMax` of the scores (`None` when it is `None`); the score slot ends holding that game's score, or is unchanged when nothing is selected |
| `Selection.WinnerWithinNoiseOfBest` | BGGRandom.user.js:272-328 | the random term only breaks near-ties: the winner's weighted factors exceed every other game's minus 0.1 |
| `Selection.RecencyWinnerIsStalest` | BGGRandom.user.js:272-286 | the recency loop's winner has the greatest day count of all games; the random term only chooses among games tied on it |
| `Selection.TotalPlaysAlwaysSelects` | BGGRandom.user.js:293-307 | the total-plays loop selects some game from every non-empty list |
| `Selection.PastGamesAlwaysSelect` | BGGRandom.user.js:272-328 | every strategy selects some game from a non-empty list without future dates |
| `Selection.FutureDateSelectsNothing` | BGGRandom.user.js:272-286 | a lone game dated two days ahead makes the recency loop select nothing |
| `Selection.StaleGameBeatsNeverPlayed` | BGGRandom.user.js:314-328 | with zero noise, a game with 5 plays last played a day or more ago beats a never-played game with 0 plays under the combined score |
| `Selection.PickIndex` | BGGRandom.user.js:336 | `floor(r * length)` is a valid index below `length`, and `r * length` lies in [index, index + 1) |
| `Selection.PickIndexInterval` | BGGRandom.user.js:336 | index `k` is picked exactly by the draws in [k/length, (k+1)/length), so each index has probability 1/length |
| `Selection.RandomlySelectGame` | BGGRandom.user.js:335-341 | returns the game at the picked index; the slot holds its recency score when recency bias is on, else its total-plays score |
| `Fetcher.LeadingQueued` | BGGRandom.user.js:168-179 | the count of leading 202 statuses: all statuses before it are 202 and the one at it is not |
| `Fetcher.FetchOutcomeCharacterised` | BGGRandom.user.js:168-179 | a 200 after only 202s means success; a first non-202 status that is not 200 means failure with that status after exactly one request per status seen |
| `Fetcher.GetUserBoardgames` | BGGRandom.user.js:163-184 | the loop's result is decided by the first non-202 status; it issues one request per status up to and including that one, and waits once per leading 202 |
| `GamePage.DigitRun` | BGGRandom.user.js:437 | greedy `\d+`: the run is all digits and the character after it is not a digit |
| `GamePage.FirstMatchFrom` | BGGRandom.user.js:437 | finds the leftmost position where `/boardgame/` is followed by a digit, or `None` when no position matches |
| `GamePage.GameIdFromPath` | BGGRandom.user.js:436-439 | `None` iff nothing matches; otherwise the non-empty, maximal digit run captured at the leftmost match |
| `GamePage.IsGamePage` | BGGRandom.user.js:428-430 | holds iff the expression matches somewhere, iff `GameIdFromPath` is not `None` |
| `GamePage.DigitRunOfDigits` | BGGRandom.user.js:437 | a digit string followed by a non-digit is read back at its full length |
| `GamePage.NavigationPathRoundTrip` | BGGRandom.user.js:436-439 | the path of the navigation target `/boardgame/<id>` (with any slug) is a game page whose id is `<id>` |
| `GamePage.SelectionScoreDisplay` | BGGRandom.user.js:483-503 | the score is shown iff the page is a game page whose id belongs to a cached game, and what is shown is the stored slot |
| `GamePage.NavigatedGameShowsScore` | BGGRandom.user.js:483-497 | the page of a cached game with a numeric id shows the stored score |
| `Games.FindGame` | BGGRandom.user.js:492 | `None` iff no game has the id; otherwise the first game carrying that id |
| `Orchestrator.Dispatch` | BGGRandom.user.js:401-409 | exactly one procedure runs: uniform iff both flags are off; otherwise the strategy uses the time factor iff recency bias is on and the frequency factor iff total-plays bias is on |
| `Orchestrator.Decide` | BGGRandom.user.js:395-416 | an empty collection and only that stops with "no games"; navigation happens iff a score is written, always to a game of the collection; for a biased strategy, "no game selected" iff it scores every game <= -1, and otherwise navigation goes to the first game of maximal score with that score written; the uniform pick navigates to the game at `floor(r * length)` and writes its total-plays score; with recency bias off a game is always selected |
| `Orchestrator.RunSelection` | BGGRandom.user.js:359-422 | no user means no request and no change. A cache hit for the current user means zero requests, the cache left as is and the decision taken on the cached games. Otherwise the fetch's result decides: an error or a pending fetch changes nothing; success stores a snapshot stamped with the user and the time, then decides on the fetched games |

## Left out

- DOM and presentation: the button, the options menu, the checkbox toggles of
  the flags, the CSS, the rendering of the score with `toFixed(2)`, and
  navigation itself (`window.location.href` becomes the `Navigate` outcome).
- Loading the bias flags with their `true` default: `BiasConfig` is an input.
- `getLoggedInUsername`'s DOM query and its `split('/user/')[1]`: the user name
  is an input (`None` or empty means no user).
- The `prompt` for a user name and the "Username is required" branch: they
  cannot run, because the function has already returned when no user was found.
- `fetch`, `response.text()`, `DOMParser` and the XML item walk: a 200
  response's game list is an input. `parseInt` is assumed to give a natural
  number; a `NaN` play count is not modelled.
- Parsing of the `last_played` date text: a game carries the timestamp in
  milliseconds. An unparsable date (`NaN` days) is not modelled.
- JSON serialisation of local storage: a slot holds the value itself, so
  storing and loading a snapshot gives it back unchanged by construction.
- The clock is read once per run: every game is scored against the same
  `now`. The script calls `new Date()` again for each game it scores, so two
  games with the same date scored on either side of a day boundary can get
  different day counts there but not in the model
  (`Selection.RecencyWinnerIsStalest` relies on the single clock). The
  snapshot's time stamp is a separate input, not tied to `now`.
- The ten-second wait: only the number of waits is counted.
- Fetcher.GetUserBoardgames: the source retries without bound. The model sees
  a finite status sequence; when it runs out on 202s the result is
  `StillQueued`, standing for a fetch that has not ended.
- `alert`, `console.log` and the rethrow of fetch errors: the `Outcome`
  datatype records which message branch is taken.
- Floating point: reals are exact, so IEEE rounding of the scores and of the
  millisecond quotient is not modelled.
- Concurrency: two overlapping runs racing on the storage slots. The model is
  single-threaded.
- Selection.RandomlySelectGame: requires a non-empty list. On an empty one the
  source would fail reading a property of `undefined`, but its only caller
  returns before that.
