# NFL standings and playoff wins: a Dafny model

This project models the core of `standings.py`. That script reads the NFL standings feed and
builds one record per team. It seats the seven best-ranked teams of each conference as the
"playoff picture". It fetches each team's schedule to list the opponents the team beat. It then
counts, per team, the wins over playoff teams and the playoff teams played. Finally it reports
the playoff teams and the other teams, each group best first.

The modules follow the script's structure:

- `Common` (`common.dfy`) models the Python behaviour the script relies on:
  - truthiness of an optional string (`Truthy`);
  - `x or 0` (`OrZero`);
  - `next(...)` over a generator (`First`);
  - list comprehensions with a filter (`Filter`);
  - flattening nested loops (`FlatMap`).
- `Sorting` (`sorting.dfy`) is a stable sort by a three-integer key compared like a Python tuple.
- `Standings` (`standings.dfy`) covers `_stat` and the record-building loop of `get_standings`.
- `Schedule` (`schedule.dfy`) covers the event loop of `get_team_results`.
- `Playoffs` (`playoffs.dfy`) covers the playoff set of `build_dataset`.
- `Dataset` (`dataset.dfy`) covers the schedule pre-fetch, the per-team counters and the rows of `build_dataset`.
- `Report` (`report.dfy`) covers the order of the combined table written by the entry point.

Each loop of the script that builds a list, a set or a map is a `method` with loop invariants,
proved equal to a specification function. `_stat`'s search, the `next(...)` and `any(...)`
generators and the comprehensions are functions. The script's promises are proved as lemmas
about those functions. The two HTTP requests are parameters:
- the standings feed arrives as a decoded `StandingsData` value;
- each schedule arrives as a `Fetch`, which is either `HttpError` or the decoded document,
  produced by a function `fetch` from team id to outcome.

A JSON key that may be absent is an `Option`. Where the script supplies a default, the model
applies the same default: an absent list is `[]`, and an absent `competitions` list is `[{}]`.
Indexing a present but empty `competitions` list raises `IndexError`, which the model returns
as `Failure(IndexError)`. That failure propagates through `build_dataset`, as the exception does.

## Model

| member | source | states |
|---|---|---|
| Standings.StatLookup | standings.py:15-19 | `_stat` returns the value of the first stat with the given name (which may itself be absent); later stats with that name are ignored; no such stat gives `None` |
| Standings.NormalizeEntryFields | standings.py:28-40 | a record keeps the entry's id as `str(id)` (absent gives `"None"`) and its display name, takes the enclosing child's name as its conference, and reads wins, losses and win percentage as 0 when the stat is missing, has no value or is zero |
| Standings.NormalizeLength | standings.py:25-41 | `get_standings` yields exactly one record per entry over all children |
| Standings.NormalizeAt | standings.py:25-41 | records come child after child and entry after entry: entry `e` of child `c` sits right after the entries of the earlier children and is built from that entry and child |
| Standings.GetStandings | standings.py:22-42 | the nested loop builds exactly the records of `Normalize` |
| Common.First | standings.py:56-57 | `next(gen, None)` is `None` exactly when no element matches, and otherwise is the first matching element |
| Common.FilterMultiset | standings.py:73 | a filtering comprehension keeps each element that passes, as often as it occurs, and drops every other element |
| Common.FlatMapAt | standings.py:25-41 | in a concatenation of parts, element `e` of part `c` sits right after the earlier parts |
| Schedule.CompetitionWinsSpec | standings.py:54-62 | a competition adds nothing without an own competitor or without an opposing one; otherwise the first own and the first opposing competitor decide: the opponent's name (its `displayName`, else `team.displayName`) is added exactly when the own one is the winner and the opposing one is not an empty object |
| Schedule.EventsWinsFailure | standings.py:53-54 | the event loop raises `IndexError` exactly when some event has a present but empty `competitions` list |
| Schedule.EventsWinsAppend | standings.py:53-62 | opponents beaten accumulate in event order: the result for `a + b` is the result for `a` followed by the result for `b` |
| Schedule.EventsWinsOrigin | standings.py:53-64 | every name in the result is the beaten opponent of one event that the team won |
| Schedule.GetTeamResults | standings.py:45-64 | the loop returns `TeamResults`: an HTTP error gives `[]`, and otherwise the result is the opponents beaten, event by event, or `IndexError` |
| Sorting.SortBy | standings.py:74 | the sort yields a permutation of its input, ordered by the key tuple |
| Sorting.SortByStable | standings.py:74 | the sort is stable: the elements sharing any one key keep their input order |
| Playoffs.ComputePlayoffSet | standings.py:71-75 | the loop over conferences builds exactly the union, over all conferences present, of the names of each conference's first seven ranked teams |
| Playoffs.PlayoffSetSize | standings.py:72-75 | the playoff set holds at most seven names per conference present |
| Playoffs.SeatedRecord | standings.py:73-75 | a seated record is one of the standings records and belongs to that conference |
| Playoffs.PlayoffSetMembership | standings.py:72-75 | a name is in the playoff set exactly when some record with that name, in a conference with a truthy name, is among the seven best-ranked of its conference |
| Playoffs.OutrankedExcluded | standings.py:73-75 | a team that seven teams of its conference outrank (more wins, then fewer losses, then higher win percentage) is not seated, and its name is not in the playoff set unless another record carries it |
| Playoffs.FewRivalsIncluded | standings.py:73-75 | a team of a present conference with fewer than seven other conference teams ranked at least as high is seated, and its name is in the playoff set |
| Dataset.PlayoffBeaten | standings.py:87 | the playoff opponents beaten are exactly the beaten opponents in the playoff set, repeats kept |
| Dataset.PlayedSetSpec | standings.py:91-100 | the playoff teams played contain the distinct playoff teams beaten and lie within the playoff set; playoff teams that beat this team are added only when this team's own name is in the playoff set |
| Dataset.TeamsPlayed | standings.py:92-98 | the loops over all schedules and all records compute exactly `PlayedSet` |
| Dataset.RowForSpec | standings.py:84-102 | each row keeps its record, carries the team's beaten list, counts every win over a playoff team, bounds the playoff teams played by the playoff set's size, and is marked in the playoffs exactly when its name is in the playoff set |
| Dataset.BuildRows | standings.py:84-102 | the loop appends exactly one `RowFor` row per record, in standings order |
| Dataset.Schedules | standings.py:80-82 | on success the pre-fetched map has exactly the records' ids as keys, and each id maps to that team's results |
| Dataset.SchedulesFailure | standings.py:80-82 | the pre-fetch fails exactly when the schedule of some record fails |
| Dataset.PrefetchSchedules | standings.py:80-82 | the pre-fetch loop computes `Schedules` |
| Dataset.BuildDataset | standings.py:67-104 | `build_dataset` composes the records, the playoff set, the pre-fetch and the rows, and fails exactly when the pre-fetch fails |
| Dataset.DatasetShape | standings.py:84-104 | the dataset has one row per record, in standings order; each row keeps its record and is marked in the playoffs exactly when its name is in the playoff set |
| Dataset.LossToPlayoffTeamUncounted | standings.py:95 | as written, with the playoff set the program computes ("X" has no conference, "P" is the only team of its conference), P beat X, yet X's set of playoff teams played is empty; the corrected set is {P} |
| Dataset.PlayedSetIntendedSpec | standings.py:91-98 | the corrected count holds exactly the playoff teams the team beat or lost to; it contains the as-written set and agrees with it for playoff teams |
| Report.PartMembers | standings.py:108-113 | the first table holds exactly the dataset's playoff rows and the second exactly its other rows |
| Report.SplitPermutation | standings.py:108-113 | the two tables together hold every row of the dataset exactly once |
| Report.CombinedSpec | standings.py:107-120 | the combined table is a permutation of the dataset; the playoff rows come first and then the others; each part is ordered by playoff wins, then wins, then win percentage, all descending |

## Left out

- The HTTP requests, their timeouts, and every exception except an HTTP error status are not modelled. A `Fetch` is either an error status or a decoded document.
- `fetch` is a function from team id to outcome. So a team id that appears twice in the standings gets the same schedule both times.
- JSON values of an unexpected type are not modelled: a non-string name, a non-integer stat value, or a non-boolean `winner`.
- An absent key and a key present with JSON `null` are both `None`. The script reads a `null` `team` (standings.py:28 and :61), `standings` (:27) or `competitions` (:54) as `None` and then fails on the next lookup or index. The model reads each of them as absent and applies the default instead.
- `float(win_pct)` and `int(wins)` are not modelled. Stat values are integers, and the win percentage is kept as an integer that is only ever compared.
- Python's `list.sort` is modelled as a stable insertion sort on the key `(-wins, losses, -win_pct)`.
- Report.CombinedSpec: with no standings records the script raises `KeyError`, because `pd.DataFrame([])` has no `in_playoffs` column (standings.py:108). The model gives the empty table instead.
- Report.CombinedSpec: the order of rows with equal report keys is not claimed. pandas' `sort_values` does not promise one; the model happens to keep standings order.
- pandas DataFrames, the printed tables, the CSV file and the HTML report are not modelled. Only the order and membership of the combined table are.
- Rows are values. The script writes the new keys into the standings dictionaries in place. Nothing reads those keys back before the row is appended, so the in-place update and its aliasing are not modelled.
- Tiebreakers, strength of schedule and quality scores have no code in `standings.py` and are not part of this model.

## Findings

| source | as written | input that shows it | evidently intended | confidence | as-written member | corrected member |
|---|---|---|---|---|---|---|
| standings.py:95 | a schedule that beat this team counts only when `opp in playoff_teams`, where `opp` is this team's own name | team "X" (no conference, so not seated) lost to "P" (sole team of its conference, so seated): P's schedule lists "X", yet X's playoff teams played is 0 | count the playoff teams the team beat or lost to, as the comments at lines 91 and 93 say | medium, not executed | Dataset.LossToPlayoffTeamUncounted | Dataset.PlayedSetIntendedSpec |

The dataset rows keep the as-written count (`PlayedSet`), so `BuildDataset` matches the program.
`PlayedSetIntended` gives the corrected count, and `PlayedSetIntendedSpec` relates the two.
