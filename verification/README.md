# Practice-session analyses of the F1 data-analysis tool, in Dafny

This project models the computational core of four practice-session analyses of the
F1 data-analysis tool, and proves properties about that model:

- **Lap delta and sector ranking** (`practice_laptime.py`).
  - Each driver's fastest lap, sorted, with the gap to the leader and the bar labels.
  - Each driver's best time in each of the three sectors, ranked, cut to the top twenty,
    and drawn as "zoomed" bars.
- **Long runs** (`practice_longrun.py`).
  - Stints of at least five accurate laps, cleaned of laps at or beyond 107 % of the
    stint median, re-checked, and renumbered 1..n.
  - The per-driver orderings by mean and by median lap time.
  - The column labels of the consistency chart.
- **Downforce map** (`practice_downforce.py`).
  - The driver with the highest average speed in each team.
  - One row per team, and the padded axis limits.
- **Track dominance** (`practice_dominance.py`).
  - The three fastest laps from distinct teams: a stable sort, then a greedy scan.
  - 25 half-open mini-sectors over the reference lap.
  - The winner of each mini-sector, the segments drawn and the legend.

How the model represents the program:

- **Durations** (`Timedelta`) are whole microseconds (`Times.Micros`). `Times` also
  exposes the normalised `seconds` and `microseconds` fields.
- **Speeds and distances** are exact `real`s.
- **The 1.07 factor** is `107/100`.
- **Session and library calls** are function parameters.
  - The session/data library and the plotting library's colour lookup are parameters.
  - A driver whose lookups raised (the `try/except: continue` blocks) appears as `None`
    in the input sequence.
  - A colour lookup that raises returns `None`.
- **An analysis that gives up** returns `Err` with the message it prints.
- **Sorting** goes through one stable insertion sort, `Sorting.SortBy`. Python's `sorted`
  and `list.sort` are stable, and the model proves the stability (`Sorting.SortIsStable`).

Modules:

| module | file | contents |
|---|---|---|
| `Results` | `results.dfy` | `Option`, `Result` |
| `Seqs` | `seqs.dfy` | filtering, de-duplication, sums, means, min and max |
| `Sorting` | `sorting.dfy` | the stable sort, stability, the first minimum |
| `Stats` | `stats.dfy` | the pandas median |
| `Scaling` | `scaling.dfy` | inequalities between products of reals |
| `Times` | `times.dfy` | microsecond durations and their fields |
| `Decimal` | `decimal.dfy` | decimal printing and parsing, for the labels |
| `Colors` | `colors.dfy` | the custom colour table and the fall-back chain |
| `Naming` | `naming.dfy` | chart file names and save paths |
| `LapDelta` | `lap_delta.dfy` | the lap-delta table and its labels |
| `SectorRanking` | `sector_ranking.dfy` | the sector rankings and their zoom |
| `LongRun` | `long_run.dfy` | the long-run analysis |
| `Downforce` | `downforce.dfy` | the downforce map |
| `Dominance` | `dominance.dfy` | the track-dominance map |

Each analysis also has a save-path function: `LapDelta.LapDeltaPath`, `SectorRanking.SectorRanksPath`,
`LongRun.TrendPath`, `LongRun.ConsistencyPath`, `Downforce.DownforcePath` and `Dominance.DominancePath`.
Each only joins its analysis's directory and file-name suffix through `Naming.ChartFileName` and
`Naming.SavePath`. What they promise is what those two members promise.

## Model

Source paths are relative to the repository root.

| member | source | states |
|---|---|---|
| Colors.DriverColor | f1_data/data_analysis_tool/practice/practice_laptime.py:45-52 | A driver in the custom table gets its table colour. Otherwise the driver gets the library's colour, or "gray" when the lookup raises. |
| Colors.CustomDriverIgnoresLibrary | f1_data/data_analysis_tool/practice/practice_laptime.py:47-48 | For a driver in the custom table, any two colour libraries give the same colour, so the library is never consulted. |
| Colors.TeamColor | f1_data/data_analysis_tool/practice/practice_downforce.py:26-29 | The custom table is keyed on the driver and the library on the team. The fall-back is "gray". |
| Colors.CustomTeamColorKeyedOnDriver | f1_data/data_analysis_tool/practice/practice_downforce.py:27 | For a driver in the custom table, the team colour does not depend on the team's name. |
| Colors.CustomColorsAreHex | f1_data/data_analysis_tool/practice/practice_laptime.py:13-43 | Every custom colour is a `#RRGGBB` string. |
| Times.FieldsRecompose | f1_data/data_analysis_tool/practice/practice_laptime.py:119-121 | A duration's days, seconds (< 86400) and microseconds (< 10^6) fields recompose to the duration. |
| Decimal.Padded | f1_data/data_analysis_tool/practice/practice_laptime.py:121 | A zero-padded field (`:02d`, `:03d`) has at least the requested width, is exactly that wide when the value fits, and reads back as the value. |
| Decimal.NatToString | f1_data/data_analysis_tool/practice/practice_laptime.py:117 | The decimal text of a number is all digits, has no leading zero, and reads back as the number. |
| Decimal.IntToString | f1_data/data_analysis_tool/practice/practice_laptime.py:127 | The year's text reads back as the year, with a minus sign for a negative year. |
| Naming.ReplaceSpaces | f1_data/data_analysis_tool/practice/practice_laptime.py:127 | `replace(' ', '_')` keeps the length, leaves no space, turns each space into `_` and keeps every other character. |
| Naming.ChartFileNameParts | f1_data/data_analysis_tool/practice/practice_laptime.py:127 | A chart name is the year, `_`, the event without spaces, `_`, the session, `_`, then the analysis suffix. The name has exactly that length. |
| Naming.SavePath | f1_data/data_analysis_tool/practice/practice_laptime.py:128 | `os.path.join`: the directory, one `/`, then the file name. |
| Sorting.SortBy | f1_data/data_analysis_tool/practice/practice_laptime.py:85 | The sorted sequence ascends by the key and is a permutation of the input. |
| Sorting.SortIsStable | f1_data/data_analysis_tool/practice/practice_dominance.py:78 | Among elements with equal keys, the sort keeps the input order. |
| Sorting.SortHead | f1_data/data_analysis_tool/practice/practice_downforce.py:69 | The head of the sort is the earliest element with the smallest key. |
| Stats.Median | f1_data/data_analysis_tool/practice/practice_longrun.py:75 | The median of a non-empty column lies between the column's minimum and maximum. |
| Stats.MedianBetweenMiddles | f1_data/data_analysis_tool/practice/practice_longrun.py:75 | The median lies between the two middle entries of the sorted column. |
| Stats.MedianLowerHalf | f1_data/data_analysis_tool/practice/practice_longrun.py:75 | At least half the column is at or below the median. |
| Stats.MedianUpperHalf | f1_data/data_analysis_tool/practice/practice_longrun.py:75 | At least half the column is at or above the median. |
| Seqs.MeanBetweenMinAndMax | f1_data/data_analysis_tool/practice/practice_downforce.py:92-93 | The mean of a non-empty column lies between its minimum and maximum. |
| Seqs.Dedup | f1_data/data_analysis_tool/practice/practice_longrun.py:114 | `unique()` holds each value of the input exactly once. |
| Seqs.DedupSnoc | f1_data/data_analysis_tool/practice/practice_longrun.py:114 | `unique()` keeps first-appearance order. Appending a value appends it to the result exactly when it is new, and otherwise leaves the result unchanged. |
| LapDelta.Collect | f1_data/data_analysis_tool/practice/practice_laptime.py:63-77 | A driver's entry is collected if and only if the lookups succeeded and the fastest lap has a time. The result is empty exactly when no driver qualifies. |
| LapDelta.Tabulate | f1_data/data_analysis_tool/practice/practice_laptime.py:86-87 | On a sorted table: the rows keep the entries, row 0 is the fastest, and every gap is the lap time minus the leader's. The leader's gap is 0, no gap is negative, and gaps grow down the table. |
| LapDelta.GapTable | f1_data/data_analysis_tool/practice/practice_laptime.py:79-87 | No entries gives the "No valid lap data found." error. Otherwise the table is a permutation of the entries, headed by the fastest lap, with every gap measured from it. |
| LapDelta.LapDeltaTable | f1_data/data_analysis_tool/practice/practice_laptime.py:63-87 | The analysis fails exactly when no driver has a timed fastest lap, with the no-lap-data message. Otherwise the table holds every collected entry exactly once, fastest first, and each row's gap is its time minus the leader's. |
| LapDelta.LeaderClock | f1_data/data_analysis_tool/practice/practice_laptime.py:119-121 | `divmod(t.seconds, 60)`: minutes·60 + seconds is the seconds field, with seconds < 60. The milliseconds are the microseconds field divided by 1000, so they are < 1000. |
| LapDelta.ClockRoundTrip | f1_data/data_analysis_tool/practice/practice_laptime.py:121 | A `mm:ss.mmm` label parses back into the minutes, seconds and milliseconds it was made from. It is exactly 9 characters when the minutes are below 100. |
| LapDelta.LeaderLabel | f1_data/data_analysis_tool/practice/practice_laptime.py:118-121 | The leader's label parses as a clock whose fields are the lap time's own. |
| LapDelta.RoundedMillis | f1_data/data_analysis_tool/practice/practice_laptime.py:117 | `:.3f` rounding: the millisecond count lies within half a millisecond of the gap. |
| LapDelta.GapRoundTrip | f1_data/data_analysis_tool/practice/practice_laptime.py:117 | A `+s.mmms` label parses back as the gap rounded to the millisecond. |
| LapDelta.Labels | f1_data/data_analysis_tool/practice/practice_laptime.py:114-121 | There is one label per row. Row 0 is the leader's clock: whole minutes, seconds below 60, and the millisecond field the leader's sub-second part truncates to. Every other row is its `+gap` label. |
| SectorRanking.BestTime | f1_data/data_analysis_tool/practice/practice_laptime.py:151-153 | `min()` skips missing times. It is missing exactly when no lap has a time; otherwise it is one lap's time and no later than any lap's time. |
| SectorRanking.Entries | f1_data/data_analysis_tool/practice/practice_laptime.py:144-159 | A driver is listed in a sector if and only if the lookups succeeded and the driver has a best time there. |
| SectorRanking.Ranking | f1_data/data_analysis_tool/practice/practice_laptime.py:161-163 | A sector with no entries makes the sort fail with `KeyError: 'Time'`, because a frame built from nothing has no `Time` column. Otherwise the ranking ascends by time and is a permutation of the sector's entries. |
| SectorRanking.SectorsAreIndependent | f1_data/data_analysis_tool/practice/practice_laptime.py:151-163 | Two sessions that agree on drivers and on sector-k times give the same sector-k entries and ranking, whatever their other sectors hold. |
| SectorRanking.BestTimeDependsOnSectorOnly | f1_data/data_analysis_tool/practice/practice_laptime.py:151-153 | A driver's best sector-k time depends only on the laps' sector-k times. |
| SectorRanking.Drawn | f1_data/data_analysis_tool/practice/practice_laptime.py:180-203 | `min(len, 20)` rows are drawn: the head of the ranking, in rank order, still sorted. |
| SectorRanking.MinTime | f1_data/data_analysis_tool/practice/practice_laptime.py:186 | The column minimum is one of the times and no later than any. |
| SectorRanking.MaxTime | f1_data/data_analysis_tool/practice/practice_laptime.py:191 | The column maximum is one of the times and no earlier than any. |
| SectorRanking.ZoomBars | f1_data/data_analysis_tool/practice/practice_laptime.py:180-212 | With floor = min − 0.5 s: every width is at least 0.5 s and at most the layout width. Widths are monotone in time, and their differences are the time differences. On a sorted ranking the fastest bar is exactly 0.5 s. The branch for a panel with no rows (floor 0, width 1.0 s) is modelled as written, although the failing sort keeps it from being reached. |
| SectorRanking.SortedHeadIsMin | f1_data/data_analysis_tool/practice/practice_laptime.py:186 | In a ranking sorted by time, the first row holds the column minimum. |
| SectorRanking.SectorPanel | f1_data/data_analysis_tool/practice/practice_laptime.py:161-163 | A sector's panel fails with `KeyError: 'Time'` exactly when the sector has no entries. |
| SectorRanking.PanelShape | f1_data/data_analysis_tool/practice/practice_laptime.py:174-212 | A panel draws exactly the first min(n, 20) entries of the sector's ranking, ascending by time, with one bar each, so no entry left out is faster than a drawn one. Its first bar is exactly 0.5 s wide. |
| SectorRanking.SectorPanels | f1_data/data_analysis_tool/practice/practice_laptime.py:161-212 | The chart fails with `KeyError: 'Time'` exactly when some sector has no entries, since all three frames are sorted before anything is drawn. Otherwise it has the three sectors' panels, in sector order. |
| LongRun.Clean | f1_data/data_analysis_tool/practice/practice_longrun.py:75-80 | The cleaned stint holds exactly the laps strictly below 1.07 × median, each as often as in the stint, as a subsequence of the stint in order. |
| LongRun.MedianLapsSurvive | f1_data/data_analysis_tool/practice/practice_longrun.py:79-80 | With positive lap times, no lap at or below the median is cleaned away. |
| LongRun.CleaningKeepsHalf | f1_data/data_analysis_tool/practice/practice_longrun.py:75-80 | With positive lap times, cleaning keeps at least half of the stint. |
| LongRun.Renumber | f1_data/data_analysis_tool/practice/practice_longrun.py:84-98 | The rows number the cleaned laps 1..n in order. Each row keeps its lap's time and carries the first cleaned lap's compound. |
| LongRun.StintRows | f1_data/data_analysis_tool/practice/practice_longrun.py:71-98 | A stint gives rows if and only if it has at least 5 laps both before and after cleaning. Its rows are then the cleaned laps in order, numbered 1..n. Each keeps its lap time and carries the driver, the stint number, the first cleaned lap's compound and the driver's colour. |
| LongRun.GroupKeys | f1_data/data_analysis_tool/practice/practice_longrun.py:69 | The group keys are strictly ascending and are exactly the stint numbers of the laps. |
| LongRun.Stints | f1_data/data_analysis_tool/practice/practice_longrun.py:69 | Each group is non-empty and holds exactly its stint's laps in session order. Groups ascend strictly by stint, and every lap has a group. |
| LongRun.ShortRunsContributeNothing | f1_data/data_analysis_tool/practice/practice_longrun.py:66-71 | A driver with fewer than 5 accurate laps contributes no rows. |
| LongRun.DriverRowsFrom | f1_data/data_analysis_tool/practice/practice_longrun.py:59-98 | A row belongs to a driver's rows if and only if the driver's lookups succeeded and the row is one of the rows of one of its stints. |
| LongRun.AllRowsFrom | f1_data/data_analysis_tool/practice/practice_longrun.py:59-100 | A row is in the table if and only if it is one of the rows of some stint of some driver whose lookups succeeded. |
| LongRun.RowsComeFromLongRuns | f1_data/data_analysis_tool/practice/practice_longrun.py:59-100 | A non-empty table means some driver whose lookups succeeded has a qualifying stint. |
| LongRun.LongRunGivesRows | f1_data/data_analysis_tool/practice/practice_longrun.py:59-100 | A qualifying stint of a driver whose lookups succeeded makes the table non-empty. |
| LongRun.NoRowsIffNoLongRun | f1_data/data_analysis_tool/practice/practice_longrun.py:59-104 | The table is empty if and only if no driver whose lookups succeeded has a qualifying stint. |
| LongRun.LongRunTable | f1_data/data_analysis_tool/practice/practice_longrun.py:59-104 | The analysis fails with "No valid long run data found." exactly when no driver whose lookups succeeded has a stint of at least 5 laps that keeps at least 5 after cleaning. Otherwise it returns the whole table, which is non-empty. |
| LongRun.DriverNames | f1_data/data_analysis_tool/practice/practice_longrun.py:114 | Every driver with a row appears exactly once. |
| LongRun.TrendOrder | f1_data/data_analysis_tool/practice/practice_longrun.py:131 | The legend lists every driver of the table once, in ascending mean lap time. |
| LongRun.RowCount | f1_data/data_analysis_tool/practice/practice_longrun.py:171 | The number of a driver's rows is the number of times the driver appears in the table's driver column. |
| LongRun.StatOf | f1_data/data_analysis_tool/practice/practice_longrun.py:167-171 | A driver's column holds the median of the driver's lap times, the number of times the driver appears in the table, and the compound of the driver's first row. |
| LongRun.ConsistencyOrder | f1_data/data_analysis_tool/practice/practice_longrun.py:167-182 | The columns list every driver of the table once, in ascending median lap time. Each holds the driver's median, the number of its rows and the compound of its first row. |
| LongRun.CompoundLetter | f1_data/data_analysis_tool/practice/practice_longrun.py:176 | The compound letter is the compound's first character, or '?' for an empty compound. |
| LongRun.ColumnLabelRoundTrip | f1_data/data_analysis_tool/practice/practice_longrun.py:174-178 | A column text parses back into the driver, the compound letter and the count, so columns of different drivers never share a text. |
| Downforce.TeamDrivers | f1_data/data_analysis_tool/practice/practice_downforce.py:43 | A team's drivers are exactly the drivers of its laps, each once. |
| Downforce.TeamDriversSnoc | f1_data/data_analysis_tool/practice/practice_downforce.py:43 | Drivers are listed in the order of their first lap for the team, which decides ties in the stable reverse sort at line 69. A later lap adds its driver at the end exactly when the driver is new to the team. |
| Downforce.CandidateOf | f1_data/data_analysis_tool/practice/practice_downforce.py:50-62 | A driver is a candidate if and only if the lookup succeeded and the trace is non-empty, so both speeds exist. A candidate's top speed is the trace maximum and its average the trace mean, which is at most the top speed. |
| Downforce.QualifyingFrom | f1_data/data_analysis_tool/practice/practice_downforce.py:49-64 | The positions listed ascend strictly and are exactly the drivers that have figures. |
| Downforce.CandidatesFrom | f1_data/data_analysis_tool/practice/practice_downforce.py:49-64 | The candidates are the figures of exactly the drivers that have them, in the team's driver order. |
| Downforce.Best | f1_data/data_analysis_tool/practice/practice_downforce.py:67-69 | The chosen candidate has the highest average speed. Every earlier candidate is strictly slower, so ties go to the earliest. |
| Downforce.BestIsPick | f1_data/data_analysis_tool/practice/practice_downforce.py:67-69 | The best candidate is the figures of a driver that has figures, is at least as fast on average as every such driver, and is strictly faster than every earlier one. |
| Downforce.TeamRowOf | f1_data/data_analysis_tool/practice/practice_downforce.py:42-79 | A team has no row exactly when none of its drivers has figures. Otherwise the row comes from a driver with figures whose average speed is the team's highest, with every earlier driver with figures strictly slower. The row carries that driver's speeds and the team colour keyed on that driver. |
| Downforce.RowsFor | f1_data/data_analysis_tool/practice/practice_downforce.py:42-79 | For distinct teams there is one row per team that has a row, and every row is its team's row. |
| Downforce.TeamRows | f1_data/data_analysis_tool/practice/practice_downforce.py:39-79 | Rows have distinct teams. Each is its result team's row, and every result team with a candidate has its row. |
| Downforce.AxisLimits | f1_data/data_analysis_tool/practice/practice_downforce.py:96-102 | The limits are min − 0.4·span and max + 0.4·span, and every value lies within them. |
| Downforce.Chart | f1_data/data_analysis_tool/practice/practice_downforce.py:82-105 | No rows fails with `KeyError: 'TopSpeed'`. Otherwise the centre lines sit at the means of the average-speed and top-speed columns, each axis runs from its column's minimum to its maximum, widened by 0.4 of the column's span at both ends, and every point lies within both axes. |
| Downforce.GridAero | f1_data/data_analysis_tool/practice/practice_downforce.py:39-105 | The analysis fails exactly when no team has a row. Otherwise the chart's rows are the team rows. |
| Dominance.Candidates | f1_data/data_analysis_tool/practice/practice_dominance.py:66-75 | Seen as laps, the candidates are exactly the input's timed laps, in driver order and with repeats kept. A candidate is in the list if and only if its lap is in the input. |
| Dominance.Sorted | f1_data/data_analysis_tool/practice/practice_dominance.py:78 | The candidates ascend by lap time as a permutation, and equal times keep their order. |
| Dominance.FirstTeams | f1_data/data_analysis_tool/practice/practice_dominance.py:81-102 | The scan picks, in order, exactly the first lap of each team up to the third pick, or over the whole list when fewer than three teams exist. |
| Dominance.Scan | f1_data/data_analysis_tool/practice/practice_dominance.py:86-102 | Resumed from any point, the loop keeps the "first lap of its team" invariant and stops at three picks. |
| Dominance.PicksHaveDistinctTeams | f1_data/data_analysis_tool/practice/practice_dominance.py:91-97 | No two picks share a team. |
| Dominance.FewPicksCoverAllTeams | f1_data/data_analysis_tool/practice/practice_dominance.py:86-106 | With fewer than three picks, every team in the list was picked, so the count printed is the number of teams. |
| Dominance.ThreeFirstsAreChosen | f1_data/data_analysis_tool/practice/practice_dominance.py:81-102 | With three picks, each pick's rank is its 1-based position in the sorted list, counting skipped laps. Each pick is its team's first lap, ranks increase, and every lap before the third pick belongs to a picked team. |
| Dominance.Choose | f1_data/data_analysis_tool/practice/practice_dominance.py:81-106 | The selection fails with "Found only n unique teams. Need at least 3." exactly when fewer than three teams exist. Otherwise it returns the three chosen picks. |
| Dominance.TopThree | f1_data/data_analysis_tool/practice/practice_dominance.py:66-106 | Collect, sort stably, then select: it fails exactly when the sorted candidates hold fewer than three teams. |
| Dominance.FirstPickLeads | f1_data/data_analysis_tool/practice/practice_dominance.py:85-100 | The first pick has rank 1 and is the first lap of the sorted list. |
| Dominance.TopPickIsFastest | f1_data/data_analysis_tool/practice/practice_dominance.py:78-97 | The first pick is a candidate at least as fast as every candidate. |
| Dominance.SortedHeadIsFastest | f1_data/data_analysis_tool/practice/practice_dominance.py:78 | The head of the sorted list is a candidate with the smallest lap time. |
| Dominance.NonEmptySector | f1_data/data_analysis_tool/practice/practice_dominance.py:122-135 | A distance can lie in a mini-sector only when the lap length is positive. |
| Dominance.SectorsAreDisjoint | f1_data/data_analysis_tool/practice/practice_dominance.py:129-135 | The half-open mini-sectors are pairwise disjoint: a distance lies in at most one. |
| Dominance.EndLiesInNoSector | f1_data/data_analysis_tool/practice/practice_dominance.py:119-135 | The point at exactly the lap length lies in none of the 25 mini-sectors. |
| Dominance.EveryDistanceBeforeTheEndIsCovered | f1_data/data_analysis_tool/practice/practice_dominance.py:122-135 | Every distance in [0, length) lies in mini-sector ⌊d / (length/25)⌋, which is below 25. |
| Dominance.SectorSamples | f1_data/data_analysis_tool/practice/practice_dominance.py:135 | The mask keeps exactly the samples inside the mini-sector, each as often as in the trace, in order. |
| Dominance.SectorSpeed | f1_data/data_analysis_tool/practice/practice_dominance.py:135-137 | A trace has a speed in a mini-sector if and only if it has a sample there. The speed is the mean of the masked speeds, so it lies between their minimum and maximum. |
| Dominance.Put | f1_data/data_analysis_tool/practice/practice_dominance.py:138 | `m[d] = v`: an existing key keeps its place, and a new key goes last. |
| Dominance.PutThenLookup | f1_data/data_analysis_tool/practice/practice_dominance.py:138 | After `m[d] = v`, looking up `d` gives `v`. |
| Dominance.PutKeepsOthers | f1_data/data_analysis_tool/practice/practice_dominance.py:138 | `m[d] = v` leaves every other key's value unchanged. |
| Dominance.Gather | f1_data/data_analysis_tool/practice/practice_dominance.py:133-138 | Keys are distinct and are exactly the drivers with a value. Each holds the value of one of that driver's traces. |
| Dominance.GatherInOrder | f1_data/data_analysis_tool/practice/practice_dominance.py:133-144 | When the drivers are distinct, the dictionary lists the drivers with a value in selection order, so `max` ties go to the earliest selected driver. |
| Dominance.SectorSpeeds | f1_data/data_analysis_tool/practice/practice_dominance.py:133-138 | `sector_speeds` has a key for exactly the drivers with a sample in the mini-sector, each holding that driver's mean speed there. |
| Dominance.Winner | f1_data/data_analysis_tool/practice/practice_dominance.py:144 | `max(d, key=d.get)`: the winner has the highest speed, and every earlier key is strictly slower. |
| Dominance.SectorSegment | f1_data/data_analysis_tool/practice/practice_dominance.py:140-152 | A segment is drawn if and only if some driver has a speed, the reference has at least 2 points and the winner's colour lookup succeeds. It carries the winner, the colour and those points. A failing colour lookup is an error, because the source does not catch it. |
| Dominance.Segments | f1_data/data_analysis_tool/practice/practice_dominance.py:129-152 | The loop over the 25 mini-sectors fails exactly when some sector's colour lookup fails. Otherwise the segments are exactly the sectors' drawn segments, in ascending sector order. |
| Dominance.TracesOf | f1_data/data_analysis_tool/practice/practice_dominance.py:111-115 | There is one trace per pick, tagged with the pick's driver. The step fails exactly when some telemetry lookup fails. |
| Dominance.MapOf | f1_data/data_analysis_tool/practice/practice_dominance.py:111-157 | The reference is the first pick's telemetry, and the lap length is its greatest distance. The segments are the per-sector outcomes, and the legend lists each segment driver once. An empty reference is an error. |
| Dominance.MapOfFails | f1_data/data_analysis_tool/practice/practice_dominance.py:111-152 | The map fails with the telemetry error when a pick's telemetry lookup raises, with `ValueError: max() arg is an empty sequence` when the reference lap is empty, and otherwise exactly when the colour lookup of some mini-sector's winner raises. |
| Dominance.TrackDominance | f1_data/data_analysis_tool/practice/practice_dominance.py:63-157 | When the top-three selection succeeds, the analysis is the map drawn from those picks. When it fails, the analysis fails with the selection's error. |

## Left out

- Downloading, caching and loading sessions. The `session.*`, `pick_*`, `get_car_data` and `get_telemetry` calls are represented by their results, passed in as input sequences and lookup functions.
- `main.py` (the interactive menu) and `practice_export.py` (CSV export). They are I/O over library frames and are not part of this model.
- All drawing: matplotlib and seaborn styling, arrows, titles, legend handles, text placement, `savefig`, `show` and directory creation. The model stops at the values the charts are drawn from, plus the file names and paths.
- Floating point. Times are exact microseconds and speeds are exact reals. The model does not cover:
  - float rounding of `median * 1.07` at the boundary;
  - `total_seconds()`;
  - the `divmod` and `:06.3f` formatting of the mean in the trend legend (practice_longrun.py:134-142).
- The `str(Timedelta)` slicing printed with each dominance pick (practice_dominance.py:89). It depends on the library's text form and is only printed.
- NaN inside a column (a NaN speed sample, a NaN compound) beyond "the whole value is missing". pandas' `skipna` on partially NaN columns is not modelled.
- `pick_accurate` itself: the accurate laps are the input, each with a stint number, a lap time and a compound.
- The library colour lookup is an opaque parameter that may fail. The dominance analysis calls it directly, with no custom table and no fall-back, and the model keeps that. `Dominance.SectorSegment` reports the failure as an `Err` whose text, `no colour for <driver>`, stands in for whatever the library raises.
- `SectorRanking.Ranking`: pandas `sort_values` is not stable, so the order of equal times is unspecified in the source. The model's contract states only sortedness and permutation.
- `LapDelta.RoundedMillis`: ties are rounded up, to the next millisecond. Python formats the float nearest to the gap, which may lie just below the tie and so round down: a gap of 4500 µs may print as `+0.004s` in the source, where the model gives `+0.005s`.
- `LongRun.TrendOrder`: drivers with equal mean lap time may appear in any order; pandas' `sort_values` after `groupby` leaves ties unspecified. The contract states only ascending order, distinctness and completeness.
- `LongRun.ConsistencyOrder`: ties in the median are unspecified, as for `LongRun.TrendOrder`.
- `Downforce.Chart`: with no team rows the source fails on a missing column (`KeyError: 'TopSpeed'`), outside any handler. The model returns this as an `Err` with that text instead of raising.
- `Dominance.MapOf`: when the reference lap has no telemetry, `max` on an empty column raises `ValueError: max() arg is an empty sequence` in the source. The model returns this as an `Err` with that text instead of raising.
- `Dominance.TracesOf`: a telemetry lookup that raises is not caught in the source. The model reports it as an `Err` rather than as an exception. Its text, `no telemetry for <driver>`, stands in for whatever the library raises.
- `Stats.Median`: on an empty column pandas returns NaN; the model returns 0.0. The model never takes the median of an empty column.
