# Football match statistics database — Dafny model

This project models the core of a football-statistics pipeline. The pipeline reads a
match feed (events, lineups and game information) and produces two things:

1. per-round aggregate records for every team, outfield player and goalkeeper
   (`team_stats` and its helpers in `data/database_build.py`);
2. one feature row per match for a learning model. The `DatabaseBuilder` class
   computes each row from the teams' and players' history up to that match, then
   adds the match to that history (`fit`, `get_from_history`, `add_to_history`,
   `transform`).

It also models the name-matching helpers of `data/translator.py`. They reconcile
player names in the event feed with names in the lineups.

The modules follow the program's structure:

| module (file) | what it models |
|---|---|
| `Common` (common.dfy) | `Option`/`Result`, the error kinds the program raises, `dict.get` with a default, `str.split` |
| `Schema` (schema.dfy) | the column schedules `t_cols`/`p_cols`/`g_cols`, the events/locations/situations dictionaries, the home/away split columns |
| `Feed` (feed.dfy) | events, lineups with their 46 slots (`hp1..hp11`, `hs1..hs12`, …), the name registry (`name_to_url`, `player_pos`, `table_pos`, translations) |
| `Ledger` (ledger.dfy) | the round caches `team_round_cache`/`player_round_cache`, `get_round_number`, `get_player_round`, the commit at the end of a match |
| `Records` (records.dfy) | rows keyed by (identity, season, round), `init_row`, `append_value` in both of its modes; the class `MatchTables` holds a match's three frames and updates them in place |
| `Dates` (dates.dfy) | `count_days` over `YYYY-MM-DD` strings, with a proleptic Gregorian calendar |
| `Attribution` (attribution.dfy) | `find_name`, attributing each event to teams, rounds and players, and the event dispatch table of `team_stats`, as a list of counter operations per event |
| `Keeper` (keeper.dfy) | `keeper_update`: crediting the goalkeeper who was on the pitch |
| `Dispatch` (dispatch.dfy) | applying the operations to the match tables, event by event, in place |
| `Roster` (roster.dfy) | `init_players_in_match` and the player commit in `postprocess` |
| `Finalize` (finalize.dfy) | `update_time_played` and `update_injuries` |
| `Engine` (engine.dfy) | `team_stats` from beginning to end; the class `StatsEngine` holds the global frames and caches it updates |
| `Vectors` (vectors.dfy) | numpy vector sums, scaling and division, with NaN propagation for team vectors |
| `History` (history.dfy) | `res_index`, the team and player aggregates of `get_from_history`, `combine`, and `add_to_history` on the history maps |
| `Layout` (layout.dfy) | the column names `fit` produces, and the row layout `transform` actually writes |
| `Sources` (sources.dfy) | `good_or_bad`, `fill_info`, `get_info_from_dbs`, `get_result`, and the home/away outcome letters |
| `Builder` (builder.dfy) | the class `DatabaseBuilder` (`__init__`, `fit`, `get_from_history`, `add_to_history`, `transform`) and the loops these methods run |
| `Translator` (translator.dfy) | `add_players_to_set`, `filter_out_correct`, `append_to_dictionary`, `check_fit`, the word-match index of `fit_rest_names`, and the class `NameTable` with `resolve_match` |

Data-frame operations become operations on sequences of rows. `df.loc[mask, col] += v`
updates every row whose key matches. On a key with no row, it does nothing. In time mode
(`time=True`), a missing row raises `IndexError`. A Python exception is an `Err` of a
`Result`, and it stops the computation at the same point. Where the program updates state
in place, the model does too: `MatchTables`, `StatsEngine`, `DatabaseBuilder` and
`NameTable` are classes whose methods are proved equal to pure specification functions.
The properties are proved about those functions.

The model follows the code even where the system's written description says otherwise. The one
place it does not follow the code is the null test of the first Findings row: as written it makes
every match fail, so the statistics engine (`Roster`, `Finalize`, `Engine`) uses the corrected test.
`fit` keeps its column order as written (the second Findings row). Other places where the code and
the description differ:

- **A starter substituted off keeps the exit minute as minutes played.** The description
  says `90 − exit minute`. The code (`data/database_build.py:197-202`) changes only two cases:
  - a starter with no substitution gets 90;
  - a player who came on gets `90 − entry minute`.
- **`fill_info` averages today's row.** For every earlier game a player took part in, it reads
  that player's row for the *current* match date (`data/database_build.py:793` uses `date`,
  not `new_date`). Each average is therefore today's row, or zeros
  (`Sources.FillPlayerIsTodaysRow`).
- **A lost match counts as a win, a draw and a loss at once.** `res_index("L")` returns
  `None`, and `arr[None] += 1` adds one to all three counters (`History.LossCountsEverywhere`).
- **Exact-results mode never produces a row.** With `exact_results`, `get_result` returns
  goals, so no branch binds `homeres`. `transform` then fails on its first match
  (`Builder.ExactModeFails`).

## Model

| member | source | states |
|---|---|---|
| Common.FilterMembers | data/database_build.py:778 | a list comprehension keeps exactly the elements of the input that satisfy the condition |
| Common.Words | data/translator.py:159 | `str.split()` yields non-empty words that hold no white space, Python's Unicode white space included |
| Common.WordsSqueeze | data/translator.py:159 | the words of `str.split()`, put back together, are the string with its white space removed: no character is lost, added or reordered |
| Schema.ColumnFacts | data/database_build.py:76-114 | the team, player and keeper schedules have 43, 22 and 17 counters. `time_played` is counter 12, `has_played` is the last, and keeper counters 5, 6, 7 are saved percentage, saves, goals conceded (the indices `get_from_history` relies on) |
| Schema.KeeperCreditAt | data/database_build.py:99-105 | the keeper schedule holds `shots_saved`, `goal_conceded`, its home/away splits and `shots_on_target` at fixed positions |
| Schema.SplitColumnsExist | data/database_build.py:148-154 | every column that has a home/away variant in the model has that variant in the same table |
| Schema.PlayerSplitFacts | data/database_build.py:91-98 | outfield rows have no `games_played` or `goal_conceded`; `goal_scored_home`/`_away` are their counters 1 and 2 |
| Feed.SideSlots | data/database_build.py:350-351 | a side's lineup is 23 slots; the first 11 are the starters |
| Feed.Present | data/database_build.py:778 | the non-null names of a lineup are exactly the names it holds |
| Feed.ProductSlotsCover | data/database_build.py:159-162 | the product of 1..12 with `ap`/`hp`/`hs`/`as`, minus `hp12`/`ap12`, visits exactly the 46 lineup slots |
| Ledger.NextRoundIsFresh | data/database_build.py:120-127 | when the cache matches the stored rows, the next round is at least 1 and has no row yet, and every earlier round has one |
| Ledger.CommitAll | data/database_build.py:597-599 | committing a match records exactly the committed identities for the season, on top of the existing entries |
| Ledger.CommitKeepsContiguous | data/database_build.py:308-317 | storing the match's rows and committing their rounds keeps rounds contiguous from 1, with no gap and no reuse |
| Ledger.TeamCommitIsCommitAll | data/database_build.py:598-599 | the two team-cache assignments are the general commit of {home, away} |
| Ledger.RoundsAreConsecutive | data/database_build.py:120-122 | a team's successive matches receive consecutive round numbers starting from its next round |
| Dates.ParseInt | data/database_build.py:212 | `int()` of an empty string is a `ValueError`; a digit string gives its decimal value |
| Dates.ParseDate | data/database_build.py:210-213 | a successful parse is a valid calendar date |
| Dates.CountDays | data/database_build.py:209-214 | `count_days` succeeds iff both strings parse as dates |
| Dates.PadRoundTrip | data/database_build.py:210-212 | zero-padded digits parse back to the number they encode |
| Dates.ParseFormat | data/database_build.py:209-213 | parsing the `YYYY-MM-DD` text of a valid date gives that date back |
| Dates.CountDaysOfFormatted | data/database_build.py:209-214 | between two formatted dates, the count is the difference of their day ordinals; from a date to itself it is 0 |
| Dates.CountDaysOfParsed | data/database_build.py:209-214 | for any two strings that parse, the count is the difference of the parsed dates' ordinals |
| Dates.NextDayIsOneDay | data/database_build.py:214 | a date and the calendar day after it are one day apart, across month and year ends |
| Dates.OrdinalOrder | data/database_build.py:214 | calendar order and day-ordinal order agree |
| Dates.CountDaysSign | data/database_build.py:214 | the count is positive iff the first date is strictly earlier |
| Records.NewRow | data/database_build.py:130-133 | `init_row` stores the given key and labels, and every counter of the table is 0 |
| Records.AddTo | data/database_build.py:138-140 | `+= value` adds to the column of every row with the key; every other cell and row is unchanged |
| Records.Assign | data/database_build.py:144 | `= value` sets the column of every row with the key; every other cell is unchanged |
| Records.Rebase | data/database_build.py:200-202 | `= base - old` replaces the column by base minus its old value on the key's rows only |
| Records.SetTime | data/database_build.py:141-146 | time mode fails with `IndexError` iff no row has the key; otherwise it writes the value when the first such row holds 0, and the value minus the old one when it does not |
| Records.AppendValue | data/database_build.py:136-154 | `append_value` fails iff the column is missing, the time-mode key is missing, or the home/away column is missing. Other tables and every row's key stay unchanged |
| Records.AppendValueAdds | data/database_build.py:136-154 | in counting mode, the column and its home/away variant each gain the value on the key's rows, and nothing else changes |
| Records.TimeRuleSpan | data/database_build.py:141-146 | two time-mode writes of entry minute `a` and exit minute `b` on a fresh cell leave `b - a`, the minutes on the pitch |
| Records.AppendValueKeepsValid | data/database_build.py:136-154 | a successful append keeps every table well formed with the same rows |
| Records.MatchTables.constructor | data/database_build.py:337-339 | a match starts with three empty frames |
| Records.MatchTables.InitRow | data/database_build.py:130-133 | the in-place `init_row` appends the new row to the chosen frame and changes nothing else |
| Records.MatchTables.Append | data/database_build.py:136-154 | the in-place `append_value` leaves exactly `AppendValue`'s result, or the unchanged frames and the error |
| Records.MatchTables.Set | data/database_build.py:144 | the in-place assignment leaves exactly `Assign`'s result |
| Records.MatchTables.SetRebased | data/database_build.py:200-202 | the in-place `90 - time_played` leaves exactly `Rebase`'s result |
| Attribution.FindName | data/database_build.py:320-331 | the translated name is looked up in its own team's lineup first, then in the other team's with the teams swapped; if it is in neither, the lookup fails (`TypeError`) |
| Attribution.Nominal | data/database_build.py:358-367 | the side, round and lineups of the acting team and of its opponent come from whether the event team is the home team |
| Attribution.ResolvePlayer | data/database_build.py:375-383 | the primary player is looked up directly, or with the teams swapped for corners and own goals; only the name and the team orientation change |
| Attribution.ResolvePlayer2 | data/database_build.py:385-388 | the secondary player is never resolved for corners or when absent; otherwise it resolves like a primary player |
| Attribution.ResolveIn | data/database_build.py:389-391 | the player coming on is resolved only when present |
| Attribution.ResolveOut | data/database_build.py:392-394 | the player going off is resolved only when present |
| Attribution.Resolve | data/database_build.py:375-394 | the four lookups in order keep the two teams paired with their lineups and rounds; an absent player leaves its name empty |
| Attribution.LookupRef | data/database_build.py:429-433 | a player reference exists iff the key is in `name_to_url` and `player_rounds` and the id has a position; otherwise `KeyError` |
| Attribution.Refs | data/database_build.py:396-438 | a substitution refreshes only the in/out references; other events only the primary one, taken from the opponent for corners and own goals. An empty name keeps the previous (stale) reference |
| Attribution.GoalCredits | data/database_build.py:450-453 | a goal first adds `goal_scored` (own side) to the scoring team, `goal_conceded` (other side) to the conceding team, and one attempt |
| Attribution.GoalOpsOneAttempt | data/database_build.py:450-473 | the goal block itself counts exactly one team attempt |
| Attribution.GoalShotCountedTwice | data/database_build.py:450-516 | a goal that is also a shot event adds two team attempts: one from the goal block, one from the shot block |
| Attribution.GoalNeedsPlayer | data/database_build.py:469-473 | a goal whose player reference was never bound fails |
| Attribution.ShotNeedsPlayer | data/database_build.py:487-490 | a shot whose player reference was never bound fails |
| Attribution.OwnGoalNeverScores | data/database_build.py:464-473 | an own goal never credits `goal_scored` to any player |
| Attribution.OwnGoalCredited | data/database_build.py:464-470 | an own goal adds `own_goals` to the opponent team, and to the player unless he is a goalkeeper |
| Attribution.Location19NeverBucketed | data/database_build.py:454-456 | location 19, or no location, never adds a shot-made or shot-conceded location counter |
| Attribution.TeamCounters | data/database_build.py:519-595 | the team counters per event kind: corners won/conceded, yellow plus red for a second yellow, red, none for handball, penalties conceded/won |
| Attribution.CardEffects | data/database_build.py:538-552 | a second yellow or a red adds the card, `subs_out` and the exit minute to the sent-off player |
| Attribution.SubstitutionNeedsPlayers | data/database_build.py:555-566 | a substitution without both player references fails |
| Attribution.SubstitutionEffects | data/database_build.py:555-569 | a substitution marks the players on and off with the minute; the injury flag is set only when the text mentions an injury |
| Attribution.ShotOnTarget | data/database_build.py:504-516 | a shot on target adds to the team's and the outfield shooter's shots on target, and credits the opposing keeper (saved iff not a goal) |
| Keeper.StarterKey | data/database_build.py:259-261 | the starting keeper's key is missing only with `KeyError` |
| Keeper.Credit | data/database_build.py:265-276 | crediting a keeper adds the concession/save gains to that keeper's rows only |
| Keeper.SubKeys | data/database_build.py:277-298 | every substitute keeper credited has a row and was on the pitch (came on, not taken off) |
| Keeper.Credited | data/database_build.py:258-298 | the starter is credited iff his `subs_out` is 0; every credited keeper has a row |
| Keeper.KeeperUpdateIsCredits | data/database_build.py:258-298 | `keeper_update` equals crediting the `Credited` list, or fails with its error |
| Keeper.CreditAllGains | data/database_build.py:265-298 | after crediting a list, each row gains the keeper gain times the number of times its key is in the list |
| Keeper.StarterCredited | data/database_build.py:265-276 | with the starter still on the pitch, exactly the starter's row gains, and team and outfield frames are untouched |
| Keeper.KeeperUpdateOnlyConcessions | data/database_build.py:258-298 | `keeper_update` changes only concession/save counters of keeper rows; the team and player frames stay the same |
| Keeper.AppendConcededToKeeper | data/database_build.py:268-269 | the keeper's goal-conceded append adds one to `goal_conceded` and to its home/away variant |
| Keeper.KeeperUpdateIn | data/database_build.py:258-298 | the in-place `keeper_update` leaves exactly the specification's frames, or reports its error |
| Dispatch.ApplyOpKeepsShape | data/database_build.py:450-595 | an operation that goes through (an `append_value` or `keeper_update` call) changes counter cells only: no row is added or removed and every row keeps its table's columns |
| Dispatch.FailedOpsFail | data/database_build.py:450-595 | a raise anywhere in an event's operations aborts the match |
| Dispatch.TeamAddAddsOne | data/database_build.py:451-453 | a team increment adds 1 to its counter, and to the home/away split when one is given, on the team's row for that round only; the player and keeper frames are unchanged |
| Dispatch.RunEventsKeepsShape | data/database_build.py:356-595 | processing the events adds or removes no row and keeps every frame well formed |
| Dispatch.RunEventsIn | data/database_build.py:356-595 | the in-place event loop leaves exactly the frames of the functional event fold, or reports its error |
| Roster.SlotPlayer | data/database_build.py:165-166 | a lineup slot's player exists iff his name is in `name_to_url` and his id has a position; otherwise `KeyError` |
| Roster.InitPlayersAsWrittenRaises | data/database_build.py:163 | as written, `init_players_in_match` always raises `ValueError` |
| Roster.InitPlayersFacts | data/database_build.py:157-175 | the corrected `init_players_in_match` leaves teams alone and adds one row per lineup player at his next round; every slot gets a round |
| Roster.CommitSlotsCover | data/database_build.py:311-312 | `postprocess`'s 46 slot names are exactly the lineup slots |
| Roster.CommitPlayersOverrides | data/database_build.py:313-317 | the player commit records each lineup player's assigned round |
| Roster.RosterLedger | data/database_build.py:311-317 | after initialisation, the commit in `postprocess` advances every lineup player's cache to the round just created |
| Roster.InitPlayersIn | data/database_build.py:157-175 | the in-place initialisation, with the corrected null test of the first Findings row, leaves exactly the specification's frames and rounds, or reports its error |
| Finalize.SlotRecord | data/database_build.py:184-188 | a slot's record exists iff the player is known and has a round; otherwise `KeyError` |
| Finalize.FinishTimeRules | data/database_build.py:192-206 | finishing a player changes his first row cell by cell exactly as the rules of `update_time_played` say |
| Finalize.FinishedRules | data/database_build.py:192-206 | a carded player's `subs_out` is cleared. Minutes become 90 for an unsubstituted starter, `90 - entry` for a player who came on and stayed, and stay as they were otherwise. `has_played` is set when minutes are nonzero. Nothing else changes |
| Finalize.FullMatch | data/database_build.py:197-206 | an unsubstituted starter has 90 minutes and `has_played = 1` |
| Finalize.CameOn | data/database_build.py:200-202 | a substitute who came on and stayed has `90 - entry minute` |
| Finalize.SentOffKeepsMinutes | data/database_build.py:193-202 | a sent-off player's `subs_out` is cleared and his minutes stay the exit minute |
| Finalize.Unused | data/database_build.py:197-206 | an unused substitute's row is left exactly as it was |
| Finalize.HasPlayedIffMinutes | data/database_build.py:204-206 | from `has_played = 0`, it becomes 1 iff the final minutes are nonzero |
| Finalize.UpdateTimePlayedSucceeds | data/database_build.py:178-191 | with the corrected null test of the first Findings row (as written, line 183 always raises `ValueError`), `update_time_played` does not fail when every slot's player and round are known |
| Finalize.CarryDays | data/database_build.py:248-255 | the sentinel 10000 is kept; otherwise the previous count grows by the days between the two rows' dates |
| Finalize.InjuryDays | data/database_build.py:231-255 | 0 after an injury, 10000 in round 1, `IndexError` with no previous-round row, otherwise the carried count |
| Finalize.FinishInjury | data/database_build.py:229-255 | updating a player's injury days fails iff he has a row and his day count fails; no row is added or removed |
| Finalize.FinishInjuryAt | data/database_build.py:231-255 | only `days_without_injury` of the player's row changes, to his injury day count |
| Finalize.InjuryFreeDaysGrow | data/database_build.py:252-255 | for a later (or the same) date, the day count is defined, non-negative and equal to the calendar distance |
| Finalize.UpdateTimePlayedIn | data/database_build.py:178-206 | with the corrected null test, the in-place `update_time_played` leaves exactly the specification's frames, or reports its error |
| Finalize.UpdateInjuriesIn | data/database_build.py:217-255 | with the corrected null test (line 222), the in-place `update_injuries` leaves exactly the specification's frames, or reports its error |
| Engine.OpenMatch | data/database_build.py:337-344 | a match opens with valid frames, no player rows, and exactly the two teams' rows at their next rounds (the corrected `team_stats`, which goes on past line 163) |
| Engine.PlayMatchKeepsShape | data/database_build.py:356-597 | events and post-processing add or remove no row of the match frames |
| Engine.CloseKeepsLedger | data/database_build.py:301-317 | appending the match frames and committing both caches keeps every cache consistent with the stored rounds |
| Engine.MatchOutcomeKeepsLedger | data/database_build.py:334-599 | with the corrected null test (as written, every match raises `ValueError` at line 163), a processed match keeps rounds contiguous. Each cache advances exactly for the two teams and the lineup players, and the global frames gain exactly their new rounds |
| Engine.StatsEngine.constructor | data/database_build.py:116-117 | the engine starts with empty frames and empty round caches |
| Engine.StatsEngine.TeamStats | data/database_build.py:334-599 | with the corrected null test, the in-place `team_stats` leaves exactly the specification's state, or reports its error and keeps the old state |
| Vectors.TotalIsColumnSum | data/database_build.py:849 | the accumulated vector is the column-wise sum of the stats |
| Vectors.NTotalOfLifted | data/database_build.py:849 | with no NaN present, the NaN-aware sum is the plain sum |
| Vectors.NTotalPoisoned | data/database_build.py:849 | one all-NaN stats vector (a `fill_info` with no games) makes every column of a team's sum NaN |
| History.ResIndex | data/database_build.py:825-831 | `W`, `X`, `A` give 0, 1, 2; anything else (such as `L`) gives `None` |
| History.TallySum | data/database_build.py:850 | a counted result adds 1 to the total, an uncounted one (index `None`) adds 3; no counter decreases |
| History.LossCountsEverywhere | data/database_build.py:850 | a loss adds one to the win, draw and loss counters alike |
| History.TalliesCount | data/database_build.py:848-850 | the result counters sum to the number of games when every result is counted, and at least that when a loss is present |
| History.TeamBlock | data/database_build.py:844-865 | the team block has the season part, and the window part when `n_games` is set |
| History.TeamBlockExactWindow | data/database_build.py:848-863 | when the history has exactly `n_games` entries, the season half and the window half are equal |
| History.TeamMeanOfRepeated | data/database_build.py:857-865 | the mean of a history of identical vectors is that vector, in both halves |
| History.Per90Rates | data/database_build.py:898-904 | with positive minutes, each counter is per 90 minutes and minutes become the mean per team match. The result shares sum to 1. With no minutes, nothing changes |
| History.SaveRatioOfTotals | data/database_build.py:915-919 | the keeper save percentage is saves over (saves + goals conceded) of the raw totals |
| History.FormNonEmpty | data/database_build.py:906-913 | nonzero window minutes imply a nonempty window tally, so the share division is defined |
| History.PlayerPart | data/database_build.py:882-926 | a player's contribution has the width of his schedule plus 3, in both halves; it fails iff his history has a mis-shaped entry |
| History.GroupSize | data/database_build.py:932-943 | a group block is its season part, its window part when set, and the player count |
| History.FeatureSizeValue | data/database_build.py:932-946 | the eight group blocks and the team block add up to the feature size |
| History.FromHistory | data/database_build.py:833-946 | `None` iff the team has no history or fewer than `n_games` entries; otherwise a vector of the feature size |
| History.Prepend | data/database_build.py:953-955 | `insert(0, …)` puts the entry first in its key's list and leaves every other key alone |
| History.AddHistoryFront | data/database_build.py:951-963 | `add_to_history` prepends the match to the team's history and to each lineup player's; every other list is unchanged |
| Layout.FitColumnsCount | data/database_build.py:697-734 | `fit` produces as many column names as the row has values |
| Layout.RowLayoutCount | data/database_build.py:1037-1039 | a row is the home and away feature vectors plus one result column (two in exact mode) |
| Layout.HistoryLayoutCount | data/database_build.py:863-946 | a side's column layout has exactly the feature size |
| Layout.FitColumnsMisaligned | data/database_build.py:697-734 | as written, `fit`'s names open with the home team's stats followed by something other than its results, while the row follows them with the results |
| Layout.CorrectedColumnsAligned | data/database_build.py:697-734 | the corrected column list is exactly the row layout |
| Sources.RowsVecWidth | data/database_build.py:966 | `.values.reshape(-1)` of a selection has the schedule's width exactly when the selection holds one row (then it is that row's values), and is empty exactly when it holds none |
| Sources.LeagueSize | data/database_build.py:739-741 | 18 teams in `D1`, 20 otherwise |
| Sources.GoodOrBad | data/database_build.py:738-743 | `KeyError` iff the team has no table position; otherwise true iff it is in the top half |
| Sources.HalfOf | data/database_build.py:743 | `pos / n < 0.5` iff `2 * pos < n` |
| Sources.AvgFails | data/database_build.py:790-799 | the per-player average fails (`AssertionError`) iff two or more rows match and some kept game lists the player |
| Sources.AvgGame | data/database_build.py:790-803 | each kept game with the player adds the current row and one count when that row has minutes, and nothing otherwise |
| Sources.AvgCopies | data/database_build.py:790-806 | the accumulated sum is the current row times the number of counted games |
| Sources.OverCopies | data/database_build.py:805-806 | dividing that sum by the count gives back the row |
| Sources.AverageLoop | data/database_build.py:790-806 | the loop computes exactly the per-player average |
| Sources.FillInfo | data/database_build.py:745-810 | `fill_info` returns a team vector of the schedule's width and one vector per player of the current lineup |
| Sources.ScanKept | data/database_build.py:765-770 | the match loop keeps exactly the matches whose opponent passes the same-half test, whatever their date, in order; `s` counts them and the running sum is, column by column, the sum of the team's rows of their dates |
| Sources.FillInfoTeamMean | data/database_build.py:752-808 | the team vector averages over every season match of the team on that side with detailed statistics, before or after today's, whose opponent is on today's opponent's half of the table: it is the column-wise mean of their team rows, or all NaN when there is none |
| Sources.FillInfoNoGames | data/database_build.py:808 | with no kept match, the team vector is all NaN (0/0) |
| Sources.FillPlayerIsTodaysRow | data/database_build.py:780-806 | each player's average is today's row when it has minutes and the player is in a kept game, and zeros otherwise |
| Sources.FillInfoLoop | data/database_build.py:745-810 | the loops of `fill_info` compute exactly `FillInfo` |
| Sources.InfoFromDbs | data/database_build.py:965-983 | one vector per lineup player; the team vector has the schedule's width iff exactly one team row matches |
| Sources.GetInfoFromDbs | data/database_build.py:965-983 | the loop of `get_info_from_dbs` computes exactly `InfoFromDbs` |
| Sources.GetResult | data/database_build.py:985-992 | exact mode gives the goals; otherwise `H`, `X`, `A` iff home wins, draws, loses |
| Sources.Outcomes | data/database_build.py:1019-1024 | `homeres`/`awayres` are bound iff the result is `H`, `X` or `A` |
| Sources.OutcomesMirror | data/database_build.py:1019-1024 | swapping the goals swaps the home and away letters |
| Sources.OutcomeIndices | data/database_build.py:1018-1024 | the home letter is uncounted by `res_index` iff home lost, the away letter iff away lost; exact mode leaves them unbound |
| Builder.TeamLoop | data/database_build.py:844-865 | the team loop computes exactly the team block and the window's last date |
| Builder.TeamSums | data/database_build.py:848-855 | the loop's sums are the season totals and the first-`n_games` totals |
| Builder.PlayerLoop | data/database_build.py:882-913 | the player loop computes exactly the player's contribution |
| Builder.PlayerSums | data/database_build.py:887-892 | the loop's sums are the season totals and the totals on or after the window date |
| Builder.GroupsLoop | data/database_build.py:878-927 | the lineup loop computes exactly the groups of the first 23 players |
| Builder.PlayersLoop | data/database_build.py:867-943 | the group code computes exactly the eight group blocks |
| Builder.Combine | data/database_build.py:812-823 | `combine` concatenates the group blocks in the `(starter, position)` product order |
| Builder.StepEmits | data/database_build.py:1016-1039 | a match yields a row iff both teams' histories are long enough |
| Builder.StepRow | data/database_build.py:1037-1039 | a successful match is in result mode, and its row has width `2 * feature size + 1` |
| Builder.StepCounts | data/database_build.py:1034-1035 | a match adds one history entry to each of its two teams and to no other team |
| Builder.TransformCounts | data/database_build.py:1000-1035 | after the first `i` matches, each team's history has one entry per match it played in them |
| Builder.EmitIffPlayed | data/database_build.py:1016-1039 | a match yields a row iff both teams have already played at least `n_games` (at least one) matches of the season |
| Builder.RowsFit | data/database_build.py:1037-1039 | every row has width `2 * feature size + 1`, and rows exist only in result mode |
| Builder.ExactModeFails | data/database_build.py:1018-1024 | in exact mode `transform` always fails, with the unbound local when the first match is otherwise readable |
| Builder.FitWidth | data/database_build.py:697-734 | the list `fit` builds, as written, has `2 * feature size` names plus one label (two in exact mode): as many as a row of `transform` has values |
| Builder.ColumnsWidth | data/database_build.py:730-734 | the corrected column list has the width of every row |
| Builder.DatabaseBuilder.constructor | data/database_build.py:676-681 | stores `n_games` and `exact_results`, empty histories, no columns yet |
| Builder.DatabaseBuilder.Fit | data/database_build.py:683-736 | `fit` stores the column list in the order it builds it (`Layout.FitColumns`, which is as wide as a row by `Builder.FitWidth` but misordered by `Layout.FitColumnsMisaligned`) and keeps the histories |
| Builder.DatabaseBuilder.GetFromHistory | data/database_build.py:833-946 | the method returns exactly `FromHistory` of the current histories |
| Builder.DatabaseBuilder.AddToHistory | data/database_build.py:951-963 | the team history gains the entry in front; the method's result is exactly `AddHistory`'s |
| Builder.DatabaseBuilder.ProcessMatch | data/database_build.py:1001-1039 | one iteration of `transform`'s loop computes exactly the match step and stores its histories |
| Builder.DatabaseBuilder.TransformRows | data/database_build.py:1000-1046 | the loop yields exactly the rows and histories of the fold over all matches, or its error |
| Builder.DatabaseBuilder.Transform | data/database_build.py:994-1048 | before `fit`, `transform` fails with `AttributeError` and changes nothing; afterwards it yields the fold's rows, which exist only in result mode and have `2 * feature size + 1` values |
| Translator.AddPlayers | data/translator.py:16-37 | a substitution adds both of its players to the event team's set. Otherwise the named players go to the event team's set, or to the opponent's for corners and own goals. Sets only grow |
| Translator.AddPlayersNamesOnly | data/translator.py:22-37 | outside substitutions, every name added is the event's player or second player, never a missing value |
| Translator.AddPlayersOneSide | data/translator.py:22-37 | a named player of a non-substitution event lands in exactly one of the two sets |
| Translator.FilterOutCorrectExact | data/translator.py:40-45 | the unmatched players are exactly the input players whose translation is not in the lineup |
| Translator.AppendTo | data/translator.py:48-52 | the key's list gains the element at its end (a new list if the key was absent); every other key is unchanged |
| Translator.CheckFit | data/translator.py:55-59 | `check_fit` is true iff every word to fit occurs in the full name |
| Translator.WordMatchSymmetric | data/translator.py:161-166 | the word-match test is symmetric, and matching names have different word counts |
| Translator.WordMatchIndex | data/translator.py:155-166 | the double loop builds, for each event player, his matching lineup names in lineup order, and for each lineup name its matching event players in event order; no key maps to an empty list |
| Translator.IndexSymmetric | data/translator.py:155-166 | a lineup name is among an event player's matches iff the event player is among that name's matches iff the two names word-match |
| Translator.WordMatchIndexInto | data/translator.py:155-166 | every name the index proposes is a lineup name |
| Translator.ResolveByWords | data/translator.py:65-73 | a word-match pairing is recorded iff the player has exactly one match and that match has exactly one player |
| Translator.ResolveByPreviousSeason | data/translator.py:84-90 | with no unique word match and no clear distance winner, the previous season's name is reused when it is in the lineup |
| Translator.RecordedOnlyKey | data/translator.py:62-146 | resolving a player writes at most his own (player, team, season) entry |
| Translator.ResolvedIsMatched | data/translator.py:62-146 | once a pairing to a lineup name is recorded, the player is no longer unmatched |
| Translator.NameTable.ResolveMatch | data/translator.py:62-146 | the in-place `resolve_match` returns whether a pairing was found and records exactly that pairing. When it raises (no unique word match and fewer than two distance candidates) it records nothing |

## Left out

- The data loading (`read_csv`, pickles), the `build` driver loop, `fix_mistakes`, `web_crawl.py` and `odds.py` are not part of this model. They only read files and call the modelled functions.
- `print` output, `tqdm` progress bars and the manual `input()` branch of `fit_rest_names` (`data/translator.py:168-186`) are left out, because they are console I/O.
- `build_player_name_translator` (`data/translator.py:188-258`) is left out. It is a driver that reads files and calls the modelled helpers match by match.
- The Levenshtein distance and its 0.2 thresholds (`data/translator.py:76-81`) are left out because the distance library is foreign code. `Translator.ResolveName` takes the outcome of that test as a parameter.
- The event-column swap of the "database mistake" branch (`data/translator.py:93-143`) rewrites the global events frame. The model keeps only its answer: `True` when the other team's translation is in the other lineup.
- `Translator.AddPlayers` and `Translator.AppendTo` return updated values rather than mutating the caller's set or dictionary, so aliasing between callers is not captured.
- `Translator.AddPlayers`: a NaN name is `None`. A Python set can hold several distinct NaN objects, but the model's set holds `None` at most once.
- `Translator.WordMatchIndex` requires the event players and the lineup to have no duplicates. This holds because the program iterates over a set and over one lineup row; with duplicates the Python lists would hold repeated entries.
- `n_games = 0` is excluded by the type `NGames` (positive or `None`). The program would divide by zero.
- numpy broadcasting is modelled only where the code relies on it (`arr[None] += 1` and NaN propagation). Floats are mathematical reals, with no rounding.
- Columns of `lineups.csv` beyond the 46 lineup slots are not modelled.
- `Layout`: the column *names* `fit` builds are modelled as typed segments (side, group, window, stats or results), not as strings.
- After an exception, the program may leave the history or the frames partly updated. The in-place methods promise only the error, except where the contract states the unchanged state.
- Which exception class is raised is kept only as far as the code makes it observable: `KeyError`, `IndexError`, `ValueError`, `TypeError`, `AttributeError`, an unbound local, an assertion.
- `Engine` and `Finalize` use the corrected null test of the first Findings row. As written, `team_stats` raises `ValueError` at `data/database_build.py:163` on every match, and `update_time_played` and `update_injuries` would raise it at lines 183 and 222; only `Roster.InitPlayersAsWrittenRaises` models that.
- `Engine` takes the match's lineup row as a parameter. A lineup selection with no row, where `.values[0]` raises `IndexError` (`data/database_build.py:350`), or with several rows is not modelled.
- `Translator.WordMatchIndex` takes the event players as names. A NaN player, which `filter_out_correct` leaves unmatched, makes `pl_full.split()` raise `AttributeError` at `data/translator.py:159` whenever the lineup is non-empty; that error path is not modelled.
- `History`: positions are the four groups of the enumeration `Position`. A position string outside them, for which `get_from_history` raises `KeyError` at `pstat_res[(pos, first_XI)]` (`data/database_build.py:880, 925`), is not modelled.
- `Dates.CountDays` does not model `datetime`'s range checks beyond a valid Gregorian date in years 1 to 9999.

## Findings

| source | as written | input that shows it | evidently intended | confidence | as-written member | corrected member |
|---|---|---|---|---|---|---|
| data/database_build.py:163 | `not isnull(lineup[pl])` applies `x != x` to a one-row pandas Series. `not` of the resulting boolean Series raises `ValueError` (the same test is at lines 183 and 222) | any match: `lineup` is the one-row frame selected at line 346 | test the single value, as `postprocess` does with `lineup[p].values[0]` | not executed | Roster.InitPlayersAsWrittenRaises | Roster.InitPlayersFacts |
| data/database_build.py:697-734 | `fit` names, per side, the team stats of both windows first and the team results later, in the substitute pass. `get_from_history` emits each window's stats followed by its results | any configuration: the second column name is not the home team's results | column names in the order of the row values | not executed | Layout.FitColumnsMisaligned | Layout.CorrectedColumnsAligned |
