# Betpawa virtual-football bot: the scan-and-act core

The bot (`index.js`) scans the virtual-football page on a timer. Each run:

- it loads its state file and starts a fresh day when the date changed;
- it stops at the daily bet limit;
- it appends the scraped matches to a 300-match history;
- it derives a trend map of wins per team from that history;
- it runs two rules over the scraped odds (value odds of at least 3.0, and
  three or more past wins at odds within [1.5, 2.5]);
- it tries to place the first candidate, and counts a success.

This Dafny project models that core:

| module | models |
|---|---|
| `JsText` (`js_text.dfy`) | the JavaScript built-ins the core depends on: `trim`, `parseInt` with and without a radix, `parseFloat` on digit-and-dot text, `replace` with a one-character pattern, `split`. NaN is `None`. |
| `Matches`, `Wrappers`, `Lists` | a scraped row, the `Option` type, and concatenating per-element lists in order |
| `Trend` (`trend.dfy`) | reading a stored score and building the trend map (`BuildTrendMap`, a loop over a `map`) |
| `Strategy` (`strategy.dfy`) | `parseOdd`, the value and trend rules, and `evaluateStrategies` (`EvaluateStrategies`, a loop pushing onto a list) |
| `Config` (`config.dfy`) | the scan interval, the daily bet limit and the dry-run flag read from the environment |
| `Placement` (`placement.dfy`) | the decisions of `placeBetWithBrowser` once the page is reduced to what it shows |
| `BotState` (`bot_state.dfy`) | the state file (`Store`) and the state object (`BotState`) that the cycle updates in place |
| `Cycle` (`cycle.dfy`) | `performScanAndAct` |

Inputs stand in for everything external:
- the date `today`;
- the environment variables, as `Option<string>`;
- the scrape, a `seq<Match>`, or `None` for a login or scrape failure;
- the bet page, a `BetPage`: how many odds buttons it shows, the balance text, and whether there is a confirm button.

Each stateful operation is a method. Its postcondition is stated by a function on records:
- the cycle as a whole is `CycleResult`;
- the lemmas about `CycleResult` give the cycle's promises.

Some risk controls are absent from the code, and the model has none of them either:
- There is no minimum-balance check, no stake cap and no daily loss limit. The only balance test is `balance < suggestedStake` (`Placement.UnitBalanceCoversUnitStake`). `MIN_BALANCE`, `MAX_STAKE` and `MAX_DAILY_LOSS` are read but never used.
- A placed bet is counted but never recorded: nothing is appended to `bets`.
- The timer starts a new cycle whether or not the previous one has finished.

The cycle places bets through the balance check as written (`Placement.PlaceBetAsWritten`). An unreadable balance therefore lets a bet through and counts it (`Cycle.UnreadableBalanceCounted`). The corrected check is stated beside it, under Findings.

## Model

| member | source | states |
|---|---|---|
| JsText.TrimSpec | index.js:254-255 | `trim` removes exactly the white space at both ends: the result is an infix of the name, only white space lies before and after it, and it neither starts nor ends with white space |
| JsText.TrimIdempotent | index.js:254-255 | trimming an already trimmed name changes nothing |
| JsText.ParseIntSpec | index.js:245-246 | `parseInt` of text whose first non-space character is a decimal digit (not a hex literal) is a non-negative number; all-space text is NaN |
| JsText.ParseIntOfDecimal | index.js:245-246 | a plain digit string parses, with or without radix 10, to the number it spells |
| JsText.ParseIntPadded | index.js:245-246 | leading white space, decimal digits, then text that does not go on with a digit (and is not a hex `0x`) parse to the digits' value, so the parts of "2 - 1" read as 2 and 1 |
| JsText.ParseIntAgreesOffHex | index.js:26 | `parseInt(s, 10)` and `parseInt(s)` agree except on text starting with a `0x` prefix |
| JsText.StripNonNumericSpec | index.js:235 | `replace(/[^0-9.]/g, '')` keeps only digits and dots, each as often as it occurs in the input |
| JsText.StripIdempotent | index.js:235 | stripping twice is stripping once |
| JsText.StripAppend | index.js:235 | stripping distributes over concatenation |
| JsText.ParseFloatOfNumberChars | index.js:235 | `parseFloat` of digit-and-dot text is a number exactly when the text starts with a digit, or with a dot and a digit, and it is never negative |
| JsText.ParseFloatOfLiteral | index.js:235 | `whole.frac` followed by more digits and dots reads as the exact decimal `whole.frac` |
| JsText.ReplaceFirstSpec | index.js:243 | `replace(':','-')` changes only the first `:`, and text without one is unchanged |
| JsText.JoinSplit | index.js:243 | `split('-')` loses nothing: joining the parts with `-` gives the text back |
| JsText.SplitPartsOmitSeparator | index.js:243 | no part of `split('-')` contains `-` |
| JsText.SplitAtFirst | index.js:243 | splitting `a-b` where `a` has no `-` gives `a` followed by the parts of `b` |
| Strategy.ParseOdd | index.js:233-237 | `parseOdd` gives a number exactly when the text is present and its digits and dots start a number; the number is finite and non-negative |
| Strategy.ParseOddIgnoresNoise | index.js:233-237 | only the digits and dots of the odds text matter |
| Strategy.ParseOddIgnoresInsertion | index.js:233-237 | inserting text without digits or dots anywhere leaves the odds unchanged |
| Strategy.ParseOddOfDecimal | index.js:233-237 | odds written `whole.frac` (possibly followed by further digits and dots) read as that exact decimal |
| Strategy.ParseOddOfWhole | index.js:233-237 | odds written as a whole number read as that number |
| Strategy.ParseOddWithoutDigits | index.js:233-237 | text with no digit (a dash, an empty string) gives no odds |
| Strategy.RulesIgnoreTruthiness | index.js:260-276 | the `oddsHome &&` truthiness test never decides a rule, and the value and trend rules never both fire for one side |
| Strategy.PushRulesAppends | index.js:259-276 | one match's rule checks append the same candidates whatever the list already holds |
| Strategy.PushRulesSpec | index.js:259-276 | for one match: at most two well-formed candidates, in push order and for different sides; a value candidate for a side exactly when its odds are at least 3.0; a trend candidate exactly when the side has at least 3 wins and odds in [1.5, 2.5]; never a draw |
| Strategy.CandidatesInScanOrder | index.js:253-279 | the candidates of consecutive stretches of scraped matches concatenate in scan order |
| Strategy.CandidatesWellFormed | index.js:253-279 | every candidate comes from a scraped match, is well formed against that match's odds and trend counts, and there are at most two per match |
| Strategy.FirstCandidate | index.js:253-279 | the first candidate is the first one of the first scraped match that yields any |
| Strategy.NoCandidates | index.js:253-279 | there are no candidates exactly when no scraped match yields any |
| Strategy.EvaluateStrategies | index.js:231-280 | the loop builds the trend map, then returns exactly the candidates of the matches in scan order and rule order |
| Strategy.ValueOddsScenario | index.js:259-265 | with no history, home odds "3.50" and away "2.05" give one home value candidate at 3.5 |
| Strategy.TrendScenario | index.js:253-276 | once "A" has at least 3 wins, " A " at "1.80" against "B" at "4.20" gives the away value candidate, then a home trend candidate for the trimmed "A" with its win count |
| Strategy.TrendScenarioAfterThreeWins | index.js:240-276 | after the three home wins of "A" (2-1, 3-0, 1-0) the trend candidate carries the count 3 |
| Trend.Wins | index.js:243-248 | a stored match adds at most one win to a team, exactly when that team is the side that scored more |
| Trend.WinCountAppend | index.js:241 | win counts over two stretches of history add up |
| Trend.Credit | index.js:247-248 | crediting a team adds one to its entry (a missing entry reads as 0), changes no other entry, and stores the team |
| Trend.CreditMatch | index.js:243-248 | the map after one stored match differs from before by that match's wins, team by team |
| Trend.BuildTrendMap | index.js:240-251 | after the loop, every team's entry (missing reads as 0) is its win count over the history, and only teams with wins are stored |
| Trend.ScoreGoalsOfDigits | index.js:243-246 | a score `H-A` or `H:A` made of digits reads as the two numbers |
| Trend.HomeWonOfDigits | index.js:247-248 | for such a score, the home side won exactly when H > A, and the away side exactly when A > H |
| Trend.NoWinWithoutDecision | index.js:243-248 | a missing score, a score that does not split in two, a side whose goals do not read as a number ("2-", "x-1"), or equal goals credits nobody |
| Trend.ThreeHomeWins | index.js:240-251 | after 2-1, 3-0 and 1-0 for "A" at home against "B", "A" has 3 wins and "B" none |
| Config.ScanIntervalMs | index.js:26-27 | the interval defaults to 10 minutes, is a whole number of minutes and at least one, and is NaN exactly when the setting does not start with a number |
| Config.ScanIntervalOfMinutes | index.js:26-27 | a setting of `n` digits gives `max(1, n)` minutes in milliseconds |
| Config.MaxBetsPerDay | index.js:34 | the daily limit defaults to 30 |
| Config.DefaultLimit | index.js:364 | with the default limit, the cycle stops exactly when 30 or more bets have been counted today |
| Config.NonNumericLimitNeverReached | index.js:364 | a limit that does not start with a number (such as "thirty") is NaN and never stops the cycle |
| Placement.BalanceSpec | index.js:316-323 | no balance element reads as 0; otherwise the balance is a number exactly when the text's digits and dots start one, and it is never negative |
| Placement.PlaceBetAsWritten | index.js:304-350 | as written, the bet goes ahead exactly when three odds buttons are shown, the balance is not a number below the stake (a NaN balance passes), and it is a dry run or there is a confirm button |
| Placement.PlaceBet | index.js:304-350 | corrected: the bet goes ahead exactly when the buttons are shown, the balance is read as a number covering the stake, and it is a dry run or there is a confirm button; each failure has its message |
| Placement.PlaceBetAgreesOnNumbers | index.js:316-330 | the two versions agree exactly when the balance is a number or no odds button was found |
| Placement.UnreadableBalanceCounterexample | index.js:321-330 | a balance text of "--" lets a dry-run bet through as written, and the corrected version stops it |
| Placement.MissingBalanceStops | index.js:316-330 | with no balance element, both versions refuse every stake of 1 or more |
| Placement.UnitBalanceCoversUnitStake | index.js:327-347 | with no minimum balance and no stake cap, a balance of "1.0" covers a stake of 1 and the bet is confirmed, as written and corrected alike |
| BotState.Loaded | index.js:67-84 | a stored record is used as it is; a missing or unreadable file gives today's zeroed counters and an empty history |
| BotState.ResetDailySpec | index.js:94-100 | after the reset the day is today; a missing or stale day is zeroed, a current one and the history are untouched |
| BotState.ResetDailyIdempotent | index.js:94-100 | resetting twice on the same day is resetting once |
| BotState.Window | index.js:377 | `slice(-300)` keeps the last `min(300, n)` elements |
| BotState.WindowCompose | index.js:377 | windowing after every append keeps the same history as windowing once after all of them |
| BotState.Store.ReadState | index.js:67-84 | the state object holds the loaded record; only a missing file is created, holding the default record |
| BotState.Store.WriteState | index.js:86-92 | the file holds the state object's record |
| BotState.BotState.ResetDailyIfNeeded | index.js:94-100 | the state becomes the reset record, and is saved exactly when a reset happened |
| BotState.BotState.UpdateHistory | index.js:376-378 | the history becomes the window of the old history followed by the scraped matches, and is saved |
| BotState.BotState.RecordPlacedBet | index.js:389-391 | the day's bet count rises by one, nothing else changes, and the state is saved |
| Cycle.Start | index.js:361-362 | after loading and the reset, the state has a day, and it is today |
| Cycle.ActKeepsHistory | index.js:382-398 | acting on the candidates never changes the history |
| Cycle.LimitShortCircuits | index.js:364-367 | at the daily limit the cycle ends at once: no scrape, no history change, no bet |
| Cycle.HistoryWindow | index.js:376-378 | below the limit, the stored history after a scrape is the last `min(300, old + new)` matches of the old history followed by the new ones |
| Cycle.CounterRisesOnlyOnSuccess | index.js:382-395 | a bet is tried exactly when the run is below the limit, the scrape succeeded and the rules yield a candidate on the updated history, and the tried one is the first candidate; the count rises by one exactly when that placement reports ok; the date is today and the other counters are as after the reset |
| Cycle.StaysWithinLimit | index.js:364-391 | a cycle that starts at or below a numeric limit ends at or below it |
| Cycle.TriesFirstCandidate | index.js:380-387 | the candidate tried is the first one of the first scraped match that yields any, under the updated history; it was scraped in this cycle, it is well formed, and the result is the as-written placement decision for it |
| Cycle.UnreadableBalanceCounted | index.js:321-330 | below the limit, with candidates, three odds buttons, a balance text of "--" and a dry run, the first candidate is reported placed and the day's count rises by one |
| Cycle.RecordAndAct | index.js:376-398 | recording the scrape, evaluating and acting leave the state as `Act` on the recorded history says, and the file holds that state |
| Cycle.PerformScanAndAct | index.js:360-405 | one run leaves the state as `CycleResult` says; the file holds that state exactly when a missing file was created, the day was reset, or (below the limit) a scrape was recorded, and is unchanged otherwise |

## Left out

- The browser (login, navigation by `href`, clicking, typing the stake, waits) is reduced to the `BetPage` input. A scrape or login failure is a `None` scrape. An exception thrown inside `placeBetWithBrowser` (its `catch` at index.js:352-354) is not modelled.
- The scraper is not modelled. It yields a `seq<Match>` input.
- Telegram messages and logging are not modelled: they have no effect on the state.
- The Express server, `setInterval` and the run at start-up are not modelled. The model covers one cycle at a time. Overlapping cycles and the absence of an in-flight guard are not captured.
- `launchBrowser` failures, which happen outside the `try` block, and `browser.close()` are left out.
- Strategy.ParseOdd: works in exact reals, not IEEE doubles. So it does not model rounding, or a digit string so long that `parseFloat` returns `Infinity`, which `isFinite` would turn into null.
- Placement.Balance: reads `parseFloat` as an exact real too. A balance text that only rounds up to the stake as a double ("0.99999999999999999" is 1 as a double) is read as below a stake of 1, so such a bet is refused where the source would place it.
- JsText.ParseInt: does not model digit strings beyond 2^53, where `parseInt` loses precision.
- Trend.NameKey: a missing stored name is modelled only as null, giving the trend key "null", which is what the scraper produces. An `undefined` name, which would give the key "undefined", does not arise from the scraper.
- Trend.BuildTrendMap: a history entry that is `null` makes the source's loop body throw and skip it. Stored entries are modelled as matches, so that case is not modelled. Team names that collide with object prototype properties ("constructor", "__proto__") are treated as ordinary keys.
- BotState.Loaded: a file that parses as JSON but is not an object, or whose `daily` fields are not numbers, is not modelled. A stored record is one of `StateRecord`'s shapes.
- BotState.Store.WriteState: a failed write, which the source logs and ignores, is not modelled.
- The `bets` list of the state file is created empty by `readState` and carried over unchanged by every write; nothing in the core ever changes it, so it is not part of `StateRecord`.
- Each date is an input, `today`. The source computes it separately in `readState` and in `resetDailyIfNeeded`, so the two could differ across midnight. That is not modelled.
- The candidate's reason string is modelled as a tagged `Reason` value (the rule, and for the trend rule the team and its win count).

## Findings

| source | as written | input that shows it | evidently intended | confidence | as-written member | corrected member |
|---|---|---|---|---|---|---|
| index.js:321-330 | the balance is `parseFloat` of the element's digits and dots with no check that it is a number; `balance < suggestedStake` is false for NaN, so the bet goes ahead, and the cycle counts it (`Cycle.UnreadableBalanceCounted`) | three odds buttons, balance text "--", stake 1, dry run: the result is ok | a balance that cannot be read stops the bet, as a missing balance element (read as 0) does | not executed | Placement.PlaceBetAsWritten | Placement.PlaceBet |
