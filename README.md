# Fantasy-basketball weekly rankings and dashboard tables

This project models the data-shaping core of a fantasy-basketball dashboard. The model covers four parts.

- **Weekly flattening** (`logic.py`): one week's scoreboard response is a nested JSON value. Each matchup key other than `count` contributes two teams, team `'1'` first. Each team's nested list is scanned for its key, id and name, its week, its remaining/live/completed game counts, and the statistics listed in the fixed `stat_labels` table.
- **Weekly ranking** (`logic.py`): the week's table is coerced to numbers. Each of the nine categories is ranked with the average rank for ties. Turnovers rank ascending; every other category ranks descending. The ranks are summed into `Aggregate Rank`. That sum is ranked ascending with the minimum rank for ties, giving `Adjusted_Rank`, and the table is sorted by it. A season is the weekly tables of weeks 1 … current, concatenated in week order.
- **Stat winners and the matchups table** (`logic.py`): for each matchup, the `winner_team_key` entries of its `stat_winners` list are counted. The leader, the score text and the "A vs. B" title are then derived from the first two counted teams.
- **Dashboard preparation** (`streamlit.py`):
  - the column renaming (`replace("_", " ").title()` and `format_col`);
  - the `Record` column of the standings;
  - the week options and the default week;
  - the per-week filter and sort;
  - the combined cells of the statistics table;
  - the removal of every column whose name contains `_Rank`;
  - the final projection onto `desired_order`.

Module layout: one file per module.

| module | file | plays the part of |
|---|---|---|
| `Wrappers` | `wrappers.dfy` | `Option` and `Result`, with Python's exceptions as the error |
| `PyJson` | `pyjson.dfy` | a JSON value with Python's `[]`, `.get`, `in`, `.keys()` and iteration semantics (objects are association lists in insertion order) |
| `Text` | `text.dfy` | `str.replace` of one character, ASCII `str.title`, decimal `str(n)`, `endswith`, `in` on strings |
| `Seqs` | `seqs.dfy` | counting, boolean-mask filtering and sorting by a key |
| `Flatten` | `flatten.dfy` | `logic.py`, lines 96-157 |
| `Ranking` | `ranking.dfy` | pandas `rank(method='average')` and `rank(method='min')` |
| `Weekly` | `weekly.dfy` | `logic.py`, lines 159-193 |
| `StatWinners` | `winners.dfy` | `logic.py`, lines 19-28 and 201-252 |
| `Dashboard` | `dashboard.dfy` | `streamlit.py`, lines 44-62 and 98-136 |

The loops of the source are written as methods with `while` loops. Each method is proved equal to the recursive function that specifies it. Examples: `Flatten.ExtractTeams`, `Flatten.ApplyStats`, `Weekly.AddRankColumns`, `StatWinners.ExtractStatWinners` and `Dashboard.RewriteStatCells`. Calls into the fantasy API and reads of CSV files are replaced by parameters: a week's response is a `Json` value and a season is the list of responses. `pd.to_numeric(..., errors='coerce')` on strings is a parameter `parse`.

The tie conventions are:
- Per-category ranks use fractional (average) ties. The code calls `rank` with its default method at `logic.py:171` and `logic.py:173`.
- `Adjusted_Rank` uses `method='min'` at `logic.py:179`. This is competition ranking: ties share the smallest position and the next rank skips (1, 1, 3), not dense ranking (1, 1, 2). The model proves `adjustedRank == 1 + #(rows with a smaller aggregate)`.
- The comment at `streamlit.py:127` says `Adjusted_Rank` is spared. The code at line 128 removes every column containing `_Rank`, and that includes `Adjusted_Rank`. The model follows the code. The shown table is unaffected, because `desired_order` uses the combined `Adjusted Rank` column.

## Model

| member | source | states |
|---|---|---|
| PyJson.Find | logic.py:128-133 | a key is found in an object exactly when it is one of the object's keys, and the value found is one stored under that key |
| PyJson.Get | logic.py:103 | `x[k]` succeeds exactly when x is an object holding key k, with a value stored under k; a missing key raises KeyError and a non-object raises TypeError |
| Flatten.Lookup | logic.py:31-43 | a statistic id has a slot exactly when it is a key of `stat_labels`, and the slot is the one the table gives |
| Flatten.LabelFor | logic.py:141-142 | `stat_id in stat_labels` raises exactly for unhashable ids, and then TypeError; a string id gets its `stat_labels` slot (none when unknown); only string ids can match |
| Flatten.NonCount | logic.py:101-102 | the visited keys are exactly the matchup keys other than `count` |
| Flatten.ExtractTeams | logic.py:99-106 | the loop computes `Teams`, the function the lemmas below describe |
| Flatten.TeamsFromSucceeds | logic.py:101-106 | collecting the teams succeeds exactly when every non-`count` matchup has both sides `'1'` and `'0'` |
| Flatten.TeamsFromValue | logic.py:103-106 | the collected list is two entries per non-`count` key in key order, side `'1'` then side `'0'` |
| Flatten.TeamsFromShape | logic.py:99-106 | the two facts above together: the iff for success, and the list's length and layout |
| Flatten.ApplyHeaders | logic.py:126-133 | the header loop over `data[0]` computes `HeadersFrom` |
| Flatten.HeadersKeepRest | logic.py:126-133 | the header loop changes only `team_key`, `team_id` and `name` |
| Flatten.ApplyStats | logic.py:140-143 | the statistics loop computes `StatsFrom` |
| Flatten.StatStepSlot | logic.py:141-143 | a known id overwrites exactly its slot with the statistic's value; an unknown id leaves the slots as they are |
| Flatten.StatUntouchedSlot | logic.py:140-143 | a slot that no later statistic names keeps its value |
| Flatten.StatUnknownIdNoTrace | logic.py:142 | a well-formed statistic with an id outside `stat_labels` leaves no trace anywhere in the list |
| Flatten.StatLastOccurrenceWins | logic.py:140-143 | when a statistic id occurs several times, the slot holds the value of its last occurrence |
| Flatten.ApplyItem | logic.py:136-147 | one step of the nested-field loop computes `ItemStep` |
| Flatten.ApplyItems | logic.py:135-147 | the nested-field loop computes `ItemsFrom` |
| Flatten.LastWrittenFacts | logic.py:126-147 | in a scan where later items overwrite, a field is unwritten exactly when no item writes it, and the last item that writes it decides its value |
| Flatten.LastWrittenNone | logic.py:126-147 | a field is left unwritten exactly when no item writes it |
| Flatten.ProbeFinds | logic.py:128-133 | `if k in item: ... item[k]` yields `item[k]` exactly when the item is a dict holding k |
| Flatten.HeadersWrite | logic.py:126-133 | after the header loop, `team_key`, `team_id` and `name` each hold the value of the last entry of `data[0]` holding that key, and keep their old value when none does |
| Flatten.StatsPartWrites | logic.py:137-142 | the `team_stats` branch sets the week from `team_stats['week']` and changes nothing but the week and the statistics |
| Flatten.CountsPartWrites | logic.py:143-147 | the `team_remaining_games` branch sets the three game counts from its `total` and changes nothing else |
| Flatten.ItemStepWrites | logic.py:135-147 | one item writes the week and counts it carries and leaves the header fields alone |
| Flatten.ItemsWrite | logic.py:135-147 | after the item loop, the week holds the value of the last item with `team_stats` and each game count that of the last item with `team_remaining_games`; each keeps its old value when no item carries it |
| Flatten.TeamFields | logic.py:110-150 | every flat field of a team's record is the value of the last entry carrying it, and None (the cell is None, NaN after coercion) when no entry carries it |
| Flatten.StatsFromSlot | logic.py:140-143 | within one statistics list, a slot ends with the value of the last statistic naming it, and keeps its old value when none does |
| Flatten.ItemsSlot | logic.py:124-143 | the statistic slots are shared by all items: a slot ends with the value of the last item whose statistics name it, and keeps its old value when none does |
| Flatten.TeamSlots | logic.py:124-150 | a team's slot holds the last value written to it over all of `data`, and is filled exactly when some statistic of some item's list names it |
| Flatten.TeamSlotLastWins | logic.py:124-150 | the last statistic naming a slot, in the last item naming it, decides the slot's value |
| Flatten.LastWrittenLast | logic.py:126-147 | when an item writes a field and no later item does, the field holds that item's value |
| Flatten.ItemsKeepHeaders | logic.py:135-147 | the nested-field loop never changes `team_key`, `team_id` or `name` |
| Flatten.FlattenTeam | logic.py:110-150 | one team's flattening computes `Team` |
| Flatten.FlattenTeams | logic.py:108-154 | the per-team loop computes `Records` |
| Flatten.RecordsFromShape | logic.py:108-154 | flattening succeeds exactly when every team flattens; there is then one record per team, in order |
| Weekly.CoerceSlot | logic.py:150-164 | each category value is the coerced slot, and a slot that was never written is missing |
| Weekly.AddRankColumns | logic.py:169-173 | the loop over the nine categories computes the rank columns |
| Ranking.Trichotomy | logic.py:171-173 | every present value is ahead of, equal to or behind v, and exactly one of these holds |
| Ranking.AverageRankWeight | logic.py:171-173 | twice the average rank is 2·#ahead + #equal + 1 |
| Ranking.RankBounds | logic.py:171-173 | a present value ranks between 1 and N, the number of present values |
| Ranking.RankMissing | logic.py:164-173 | a missing value has no rank |
| Ranking.RankFollowsOrder | logic.py:170-173 | a rank is smaller exactly when its value is ahead (smaller for TO, larger otherwise); ranks are equal exactly when the values are |
| Ranking.RankImproves | logic.py:170-173 | improving one team's value never worsens its rank |
| Ranking.RankSum | logic.py:171-173 | the ranks of a column sum to N(N+1)/2 |
| Ranking.TurnoverTieExample | logic.py:171 | turnovers {10, 8, 8} rank {3, 1.5, 1.5} |
| Ranking.MinRankBounds | logic.py:179 | a min-rank lies in 1..n, and the smallest value gets rank 1 |
| Ranking.MinRankOrder | logic.py:179 | min-ranks are ordered exactly as the values, and equal exactly when the values are |
| Weekly.CategoryRank | logic.py:169-173 | each team's rank in a category is the average rank of its value among the week's present values, between 1 and N, and missing exactly when the value is |
| Weekly.BetterValueBetterRank | logic.py:169-173 | a higher value (a lower one for TO) never gives a worse rank in the week's table |
| Weekly.AggregateIsRankSum | logic.py:176 | `Aggregate Rank` is the sum of the team's present category ranks, and each of those is its column's rank |
| Weekly.AggregateTotal | logic.py:176 | over the week, the aggregates add up to the sum over the categories of N(N+1)/2 |
| Weekly.AdjustedRankOrder | logic.py:179-182 | `Adjusted_Rank` lies in 1..n; it is equal exactly for equal aggregates and smaller exactly for smaller ones; the smallest aggregate gets rank 1 |
| Weekly.AdjustedRankCounts | logic.py:179-185 | every row of the sorted table has `Adjusted_Rank` equal to 1 + the number of rows with a smaller aggregate |
| Weekly.TableSorted | logic.py:157-185 | the table exists exactly when there is a team (`pd.concat([])` raises ValueError); it is a permutation of the ranked rows, sorted by `Adjusted_Rank` |
| Weekly.WeeklyStats | logic.py:90-187 | the whole weekly pipeline computes `WeeklyTable` |
| Weekly.WeeklySize | logic.py:96-157 | a weekly table has two rows per non-`count` matchup, and at least one |
| Seqs.SortByKey | logic.py:185 | the sort returns a permutation of its input that is ordered by the key |
| Weekly.CollectShape | logic.py:191 | the weekly results are collected exactly when every week succeeds; otherwise the first failing week's error is raised |
| Weekly.SeasonSucceeds | logic.py:189-193 | the season exists exactly when there is at least one week and every week's table exists |
| Weekly.SeasonInWeekOrder | logic.py:191-192 | week w's table appears in the season right after the tables of weeks before it |
| Weekly.SeasonNeedsAWeek | logic.py:192 | with no weeks the season raises ValueError |
| StatWinners.NameIn | logic.py:19-28 | a name is found only for a key of `team_ids`, and it is that key's name |
| StatWinners.TeamName | logic.py:246-248 | `team_ids[k]` succeeds exactly for the ten team keys |
| StatWinners.NoTeamCalledTie | logic.py:243-248 | no team is named "Tie", so the lead cell tells a tie from a leader |
| StatWinners.EntryKey | logic.py:216-218 | an entry without `stat_winner` is skipped, and one whose `stat_winner` has `winner_team_key` yields a key or raises |
| StatWinners.KeysFromFacts | logic.py:215-219 | reading the winner keys succeeds exactly when every entry can be read; each key then occurs as often as the entries name it |
| StatWinners.TallyCounts | logic.py:215-220 | `Counter`: the keys are the keys counted, each once, in the order of their first occurrences; each count is positive and equals the key's number of occurrences; the counts total the input length |
| StatWinners.TallyOrder | logic.py:215-220 | the Counter's keys are in the order their first occurrences have in the input |
| StatWinners.TallyFromSnoc | logic.py:215-220 | counting one more key at the end is one more increment of the counts so far |
| StatWinners.BumpKeys | logic.py:215-220 | counting a key appends it only when it was new |
| StatWinners.BumpCount | logic.py:215-220 | counting a key raises its count by one and leaves the other counts alone |
| StatWinners.MatchupTallyCounts | logic.py:212-220 | a matchup's counts are the number of its `stat_winners` entries naming each team |
| StatWinners.NonDictSkipped | logic.py:209-210 | a matchup entry that is not a dict is skipped |
| StatWinners.ResultsFromDicts | logic.py:208-220 | every result entry comes from a dict-valued matchup with that id and that tally |
| StatWinners.Put | logic.py:220 | `results[id] = counts` stores the pair, keeps every entry with another id, and adds nothing else |
| StatWinners.ResultsFromKeeps | logic.py:208-220 | an entry whose id no later dict-valued matchup uses survives the loop |
| StatWinners.ResultsFromComplete | logic.py:208-220 | every dict-valued matchup whose id no later dict-valued matchup repeats is in the results with its own tally |
| StatWinners.ResultsFromSucceeds | logic.py:208-220 | the loop raises exactly when the tally of some dict-valued matchup raises |
| StatWinners.StatWinnerCountsFacts | logic.py:201-222 | `extract_stat_winners` succeeds exactly when the matchups can be read and every dict-valued one can be tallied; the results are then exactly the dict-valued matchups' tallies under their ids, the last one winning for a repeated id |
| StatWinners.ExtractStatWinners | logic.py:201-222 | the loop computes `StatWinnerCounts` |
| StatWinners.Order | logic.py:233-241 | taking two teams raises IndexError with fewer than two; otherwise the first team has the higher score (the first listed one on equal scores), and the pair of (team, score) is kept |
| StatWinners.LeadIsStrictWinner | logic.py:236-249 | the lead is "Tie" exactly on equal scores, and otherwise the leader's name; the row also holds "A vs. B" and "a - b" |
| StatWinners.RenderFacts | logic.py:243-249 | the row of an ordered pair: both names exist, and the cells are as above |
| StatWinners.ScoreTextInjective | logic.py:247 | the score text "a - b" determines both scores |
| StatWinners.MatchupRowsShape | logic.py:231-251 | the matchup table exists exactly when every matchup renders; it then has one row per matchup, in order |
| StatWinners.FlattenMatchupWinners | logic.py:231-249 | the loop computes `MatchupRows` |
| StatWinners.LeaderExample | logic.py:236-249 | 6–3 for the first team: the first team leads with "6 - 3" |
| StatWinners.TrailerFirstExample | logic.py:239-249 | 3–6 for the first team: the teams swap and the second team leads with "6 - 3" |
| StatWinners.TieExample | logic.py:236-249 | 5–5: the listed order is kept and the lead is "Tie" |
| StatWinners.OneTeamExample | logic.py:234-236 | with one counted team, `scores[1]` raises IndexError |
| Text.ParseNatToString | streamlit.py:46 | `str(n)` of a natural number reads back as n |
| Text.NatToStringInjective | streamlit.py:46 | different numbers print differently |
| Text.ReplaceCharRemoves | streamlit.py:45 | `replace("_", " ")` keeps the length, leaves no `_`, and keeps every other character |
| Text.TitleIsScan | streamlit.py:60 | the pointwise definition of `title` equals the left-to-right scan CPython performs |
| Text.TitleChar | streamlit.py:60 | `title` changes only the case of a character |
| Text.TitleIdempotent | streamlit.py:60 | `title` applied twice is `title` once |
| Text.TitleNoUpperAfterCased | streamlit.py:60 | after `title`, no capital follows a cased letter |
| Text.TitleKeepsUncased | streamlit.py:60 | `title` keeps every character that has no case |
| Text.EndsWithHasSubstring | streamlit.py:55 | a name ending in `_Rank` contains `_Rank` |
| Dashboard.HeadingShape | streamlit.py:45 | a renamed heading has the same length, no `_`, and no capital after a cased letter |
| Dashboard.ExcludedHaveInnerCapital | streamlit.py:51 | every excluded statistic name has a capital after a cased letter, so renaming would change it |
| Dashboard.HeadingNotPassThrough | streamlit.py:54-60 | a renamed heading never ends in `_Rank` and is never an excluded statistic |
| Dashboard.FormatColFixed | streamlit.py:54-60 | `format_col` leaves a name unchanged exactly when it ends in `_Rank`, is excluded, or is already its own heading |
| Dashboard.FormatColIdempotent | streamlit.py:54-62 | formatting the columns twice is formatting them once |
| Dashboard.FormatAllConcat | streamlit.py:62 | formatting works column-group by column-group |
| Dashboard.PassThroughHeadings | streamlit.py:54-58 | the nine statistics, their `_Rank` columns and `Adjusted_Rank` keep their names |
| Dashboard.WeekHeading | streamlit.py:60 | `week` becomes `Week` |
| Dashboard.NameHeading | streamlit.py:60 | `name` becomes `Name` |
| Dashboard.TeamKeyHeading | streamlit.py:60 | `team_key` becomes `Team Key` |
| Dashboard.TeamIdHeading | streamlit.py:60 | `team_id` becomes `Team Id` |
| Dashboard.RemainingHeading | streamlit.py:60 | `remaining_games` becomes `Remaining Games` |
| Dashboard.LiveHeading | streamlit.py:60 | `live_games` becomes `Live Games` |
| Dashboard.CompletedHeading | streamlit.py:60 | `completed_games` becomes `Completed Games` |
| Dashboard.FieldGoalsMadeAttemptedHeading | streamlit.py:60 | `FGM/A` becomes `Fgm/A`, the name dropped at line 125 |
| Dashboard.FreeThrowsMadeAttemptedHeading | streamlit.py:60 | `FTM/A` becomes `Ftm/A` |
| Dashboard.AggregateHeading | streamlit.py:60 | `Aggregate Rank` is unchanged |
| Dashboard.SeasonHeadings | streamlit.py:62 | the season table's column list formats to the headings the page uses |
| Dashboard.RecordInjective | streamlit.py:46 | the `Record` text "W-L-T" determines wins, losses and ties |
| Dashboard.RecordExample | streamlit.py:46 | 12 wins, 5 losses and 1 tie read "12-5-1" |
| Dashboard.AddColumn | streamlit.py:46 | assigning a column keeps every existing column in its order and place; a new name is appended once at the end, and an existing one leaves the list unchanged |
| Dashboard.Drop | streamlit.py:47 | `drop(columns=...)` raises KeyError unless every name is a column; otherwise the remaining columns are exactly those not named |
| Dashboard.StandingsShape | streamlit.py:45-47 | the standings step succeeds exactly when every dropped name is a renamed heading; `Record` is then present, the dropped names are gone, and every other heading stays |
| Dashboard.MatchupHeadings | streamlit.py:48 | the matchup columns `Matchup`, `Score` and `Lead` keep their names |
| Dashboard.InsertWeek | streamlit.py:99 | inserting a week keeps the options strictly increasing, and adds the week only when it is new |
| Dashboard.WeekOptions | streamlit.py:99 | the options are strictly increasing and are exactly the weeks that occur in the table |
| Dashboard.DefaultIsLatest | streamlit.py:100 | there is a default week exactly when some row has a week, and it is the latest week present |
| Dashboard.WeekTableRows | streamlit.py:103 | the week's table holds every row of the chosen week, as often as it occurs, and nothing else; it is sorted by `Adjusted_Rank` |
| Dashboard.StatCellsFromShape | streamlit.py:109-115 | the combined cells need each category and its `_Rank` column; the column list is then unchanged |
| Dashboard.RewriteStatCells | streamlit.py:109-115 | the loop over the categories computes `StatCellsFrom` |
| Dashboard.CombinedShape | streamlit.py:109-121 | building the cells succeeds exactly when all their input columns exist; `Rem/Live/Comp` and `Adjusted Rank` are then added |
| Dashboard.ColumnsToRemove | streamlit.py:125-129 | every column containing `_Rank` is on the removal list |
| Dashboard.DropRemovesRankColumns | streamlit.py:124-132 | the drop succeeds exactly when the fixed names are present; what is left has no `_Rank` column and none of the fixed names |
| Dashboard.DesiredOrderHasNoRank | streamlit.py:135 | no column of `desired_order` contains `_Rank` |
| Dashboard.DropKeepsDisplayed | streamlit.py:132-135 | the drop keeps every column of `desired_order` that was there |
| Dashboard.SelectDistinct | streamlit.py:136 | with no repeated column names, the projection returns exactly the wanted columns in the wanted order |
| Dashboard.Select | streamlit.py:136 | the projection raises KeyError unless every wanted column exists |
| Dashboard.TableColumnsOrder | streamlit.py:109-136 | with distinct columns, the table succeeds exactly when the cell inputs, the fixed removals and the shown columns are all present; its columns are then exactly `desired_order` |
| Dashboard.SeasonDistinct | streamlit.py:62 | the formatted season columns have no repeats |
| Dashboard.SeasonTableColumns | streamlit.py:62-136 | for the season table's own columns, the statistics table has exactly the columns of `desired_order` |

## Left out

- OAuth authentication, the fantasy API and `lg.current_week()` are not modelled. A week is its response value, and a season is the list of responses for weeks 1 … current (`logic.py:45-87`, `logic.py:190`).
- `get_standings`, `get_team_logos` and `app.py` lie outside the core. The standings' raw column list is a parameter of `Dashboard.StandingsColumns`.
- The CSV files are not modelled. Their writing, their reading (`streamlit.py:39-42`, including `dropna(how="all")`) and a write/read round trip are left out; the dashboard functions take the tables directly.
- Weekly.Numeric: how `pd.to_numeric` parses a string into a number is the parameter `parse`, not a model of pandas' string parser.
- Floating point is not modelled. Values and ranks are exact reals.
- Dashboard.StatCellsFrom: the cell text `round(3).astype(str) + " (" + rank + ")"` (`streamlit.py:110-115`) and the `Adjusted Rank` text (`streamlit.py:121`) depend on Python's float printing. The model checks the columns these steps read and add, not the text in the cells.
- Dashboard.Record: wins, losses and ties are natural numbers printed in decimal. The model does not cover a float column printing as "12.0".
- Text.Title: only ASCII letters are cased. Unicode title-casing is not modelled.
- Dashboard.WeekOptions: a NaN week is not offered as an option. pandas' `unique` would keep NaN, and `sorted` would give an ill-defined order.
- Dashboard.DefaultWeek: Streamlit's `selectbox` with no options is modelled as no week (`None`); the widget itself is not modelled.
- The user interface is not modelled: the page layout, buttons, markdown, the logo HTML (`streamlit.py:74-80`), the player comparison and free-agency pages (`streamlit.py:147-273`), and the time stamp.
- PyJson.Find: a repeated key in a JSON object reads its first occurrence. Python's `json` keeps the last, and its `keys()`, `items()` and iteration visit that key once. The model's `Iter`, `DictKeys` and `MatchupItems` visit every occurrence of a repeated key.
- StatWinners.TallyCounts: keys are compared as JSON values. Python's `1 == True` key equality is not modelled.
- Weekly.TableSorted: pandas' index labels and `ignore_index` are not modelled. `sort_values` uses an unstable quicksort, so only "sorted and a permutation" is promised, not the order among equal ranks.
- Dashboard.TableColumnsOrder: the exact column list is proved only for column lists without repeated names (pandas allows repeated labels).
- Weekly.Season: a failing week is reported as the first failing week's error. Exceptions are modelled as error values, not as control flow.
