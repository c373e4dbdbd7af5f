# Ticket dashboard aggregation, modelled in Dafny

The ticket dashboard (`app.py`) loads ServiceNow-style CSV exports. For each
uploaded file it does the same steps:

1. It picks a path by file name. `sc_task.csv` is the service-catalog task
   path and `incident.csv` is the incident path. Any other file is passed over.
2. It filters the rows by the agents and the raw `opened_at` values chosen in
   the sidebar.
3. From the selected rows it builds count tables: by agent, priority, state,
   category and calendar day, and by (agent, category) and (agent, priority).
4. It computes the metrics shown above the charts: the task totals, the
   incident state totals and their "Number of tickets" sum, and the From/To
   range of `opened_at`.

This project models that pipeline as pure functions over sequences of
`Row` records and proves what the tables and numbers mean.

Modules (one file each):

- `Wrappers`: `Option` and `Result`.
- `StringOrder`: Python's `str` comparison, which is lexicographic by code
  point. It is a total order.
- `Sorting`: an insertion sort over any total preorder. The result is a
  permutation of the input, in order.
- `Groups`: group-count tables `seq<Group<K>>` and their reference
  definition `IsCountTable`. It also has lookup with a 0 fall-back
  (`CountOf`), tallying, and the facts about totals and permutations.
- `Timestamps`: the `MM/DD/YYYY HH:MM:SS AM|PM` timestamp, its reader and
  writer, and `DateOf`, which cuts a timestamp down to its calendar date.
- `Tickets`: the row record and its columns.
- `Selection`: the sidebar filter.
- `Tables`: every count table the pages draw.
- `Metrics`: the task and incident metrics and the From/To range.
- `Dashboard`: routing by file name, the two pages and their failure cases.

What the model assumes:

- Timestamps have the fixed shape `MM/DD/YYYY HH:MM:SS AM` or `... PM`. This
  is the shape named in the commented-out conversion at app.py:62-65. The
  live code leaves format inference to `pd.to_datetime`.
- A timestamp the reader rejects stops the page with `Unreadable`, naming the
  first such row. This mirrors `pd.to_datetime` raising.
- An empty selection stops the page with `EmptySelection`, because Python's
  `min` raises on an empty column. The per-day table is computed first in
  app.py, so a timestamp error is reported before an empty selection.
- Nothing in app.py catches these exceptions, so a failing page ends the
  whole run and the files uploaded after it are never processed.

Three behaviours of app.py worth noting:

- The two-key tables (`groupby(['assigned_to', f]).agg(...)`) have no
  `sort_values`. pandas' `groupby` sorts its keys by default, so these tables
  are in ascending (agent, value) order, not in order of first appearance.
- `sort_values` uses pandas' default quicksort, which is not stable. No tie
  order is promised between groups with equal counts.
- The date filter compares the raw `opened_at` text, not the date part.
  Two timestamps of one day are two separate filter choices but fall into
  one per-day bucket (`Dashboard.FilterSplitsWhatDaysMerge`).

## Model

| member | source | states |
|---|---|---|
| Dashboard.Route | app.py:69 | The exact name `sc_task.csv` picks the task path, `incident.csv` picks the incident path, and every other name picks none |
| Dashboard.Process | app.py:265 | Once its rows are read, a file with an unrecognised name is skipped without error. A recognised one runs its own page, and only `sc_task.csv` can show the task page and only `incident.csv` the incident page |
| Dashboard.ProcessAll | app.py:56-57 | The uploads are handled one by one in upload order, each by its own page. The run ends at the first failing page: only the last outcome can be a failure, and a run shorter than the uploads ends in one |
| Dashboard.UpToFailure | app.py:56 | The run keeps the outcomes up to and including the first failure, in order, and nothing after it |
| Dashboard.UpToFailureContinues | app.py:56 | Outcomes that are not failures let the run continue into everything after them |
| Dashboard.StopsAtFirstFailure | app.py:56 | When file `k` is the first to fail, the run has exactly `k + 1` outcomes |
| Dashboard.TaskPage | app.py:85-132 | The task page shows the filtered rows. "Tickets by agent" counts agents, most first. The priority and per-agent tables count their own columns, fewest first. The per-day table counts calendar dates in date order. The totals are the task summary and From/To is the textual range of `opened_at`. Every table sums to "Total Ticket", the selection size. The page fails on an empty selection or on an unreadable timestamp, and only then, naming the first unreadable row |
| Dashboard.IncidentPage | app.py:278-365 | The incident page shows the filtered rows. The per-day table counts calendar dates in date order. The state, category and priority tables count their own columns, fewest first. The two pair tables count (agent, category) and (agent, priority) pairs in key order. The state metrics are the incident summary and From/To is the textual range. Every table sums to the selection size, and "Number of tickets" never exceeds it. The page fails exactly on an empty selection or an unreadable timestamp |
| Dashboard.DefaultTaskPageShowsEverything | app.py:71-88 | With both multiselects at their defaults, a non-empty task export with readable timestamps shows all its rows and "Total Ticket" equals the row count |
| Dashboard.DefaultIncidentPageShowsEverything | app.py:268-280 | With both multiselects at their defaults, a non-empty incident export with readable timestamps shows all its rows |
| Dashboard.FilterSplitsWhatDaysMerge | app.py:278-299 | Timestamps 10:00 AM and 11:00 PM on 2 January 2024: choosing only the first text keeps one row, while the per-day table counts both rows in one bucket |
| Dashboard.KeepsTheMorningRow | app.py:278-280 | The date allow-set matches whole timestamp texts: a different time on the same day is filtered out |
| Tickets.Observed | app.py:73-81 | The multiselect options and defaults, `unique()` of a column, are exactly the values that occur in the column |
| StringOrder.StrLeFirstDifference | app.py:131-132 | Python's string comparison: `a <= b` exactly when `a` is a prefix of `b` or, at the first position where they differ, `a` has the smaller code point |
| StringOrder.StrLeReflexive | app.py:131-132 | Every string is at most itself, so a single text is both the minimum and the maximum |
| StringOrder.StrLeTotal | app.py:312 | Any two strings are comparable, so `min`, `max` and the sorted `groupby` keys are always defined |
| StringOrder.StrLeAntisymmetric | app.py:312 | Two strings each at most the other are equal, so distinct sorted keys are strictly ascending |
| StringOrder.StrLeTransitive | app.py:324 | The string order is transitive, so sorting and the running minimum and maximum are consistent |
| Selection.Filter | app.py:85-88 | A row is kept exactly when its agent and its raw `opened_at` are both allowed, and the selection is never longer than the input |
| Selection.FilterMultiplicity | app.py:85-88 | A kept row appears in the selection as many times as in the input; a dropped row not at all |
| Selection.FilterConcat | app.py:85-88 | The filter works piecewise over concatenation, so input order is preserved |
| Selection.FilterPosition | app.py:85-88 | A kept row sits in the output at the index equal to the number of kept rows before it |
| Selection.FilterKeepsOrder | app.py:85-88 | Of two kept rows, the earlier input row comes first in the output |
| Selection.DefaultSelectionKeepsAll | app.py:71-88 | When the allow-sets are all observed agents and all observed `opened_at` values, the filter returns its input unchanged |
| Selection.KeepsAllSelected | app.py:278-280 | If every row passes the filter, the filter returns its input unchanged |
| Selection.EmptyAllowSetSelectsNothing | app.py:278-280 | An empty agent or date allow-set selects no rows |
| Groups.Tally | app.py:99 | Grouping gives one entry per distinct key, each with a positive count equal to that key's number of occurrences, and the counts sum to the number of rows |
| Groups.CountTable | app.py:99 | `groupby(...).count()` followed by `sort_values`: a group-count table of the key column, ordered by the given order, summing to the row count |
| Groups.PermutationKeepsCounts | app.py:99 | Reordering a count table (as `sort_values` does) keeps distinct keys, positive counts, every lookup and the total |
| Groups.CountTablesArePermutations | app.py:161 | Any two count tables of the same column hold the same entries. Results differ only in tie order |
| Groups.CountTableTotal | app.py:302 | The counts of any count table sum to the number of grouped rows |
| Groups.SingleKeyTable | app.py:297 | A column holding one value only has the single entry (value, row count) |
| Groups.TwoKeyTableAscending | app.py:161 | When two values occur with different counts, the count-ascending table is fully determined, rarer value first |
| Groups.TotalOfPermutation | app.py:99 | Reordering entries does not change the sum of their counts |
| Sorting.Sort | app.py:99 | `sort_values`: the output is a permutation of the input, ordered by the key, with no promise about ties |
| Tables.AgentTickets | app.py:91-94 | `value_counts` of agents: one entry per agent with its ticket count, most tickets first, summing to the selection size |
| Tables.CountsBy | app.py:99-101 | Per-value count of one column, fewest first, summing to the selection size. The same table serves the agent (161), state (302), category (307) and priority (318) charts |
| Tables.DaysOf | app.py:105-108 | Every row gets the calendar date of its `opened_at`, or the result names the first row whose timestamp cannot be read |
| Tables.DaysOfReadable | app.py:292-295 | When every timestamp reads, the date column is exactly the rows' dates |
| Tables.DayCounts | app.py:105-113 | The `Day`/`Number` table: one entry per calendar date with its row count, summing to the row count, strictly ascending by date. An unreadable timestamp gives the same error as reading the dates |
| Tables.OneDayOneBucket | app.py:292-299 | Rows opened on one calendar date, at any times, form a single bucket holding all of them |
| Tables.SameDayOneBucket | app.py:105-113 | "01/02/2024 10:00:00 AM" and "01/02/2024 11:00:00 PM" give the single entry (2024-01-02, 2) |
| Tables.SecondOfJanuaryRows | app.py:294-295 | Both example timestamps cut down to 2 January 2024 |
| Tables.ReadsSecondOfJanuary | app.py:107-108 | The reader turns both example texts into the date 2024-01-02 |
| Tables.PairCounts | app.py:312-315 | Each (agent, category) or (agent, priority) pair that occurs appears once, with its positive count. Counts sum to the selection size, and keys are strictly ascending by agent, then value |
| Tables.PairKeyLeIsPreorder | app.py:324-327 | The key order of the pair tables is total and transitive |
| Tables.PairLeAntisymmetric | app.py:324-327 | Two pair keys that are each at most the other are equal, so sorted distinct keys are strictly ascending |
| Tables.AgentCountsExample | app.py:160-162 | Agents A, A, B give exactly the table [(B, 1), (A, 2)] |
| Timestamps.ParseStamp | app.py:63-64 | Only well-formed texts naming a real date and a valid clock time are accepted |
| Timestamps.ParsedIsFormatted | app.py:63-64 | What the reader accepts is exactly the text the writer produces for it, so no two texts read as the same timestamp |
| Timestamps.ParseOfFormat | app.py:64 | Every valid timestamp written out reads back as itself |
| Timestamps.DateOf | app.py:107-108 | The date part of a readable timestamp is a real calendar date |
| Timestamps.DateOfDropsTime | app.py:107-108 | Two timestamps on the same day have the same date, whatever their times |
| Metrics.CountWhere | app.py:129-130 | Counting rows whose field equals a value gives at most the row count, and 0 exactly when no row has the value |
| Metrics.CountWhereOccurrences | app.py:129-130 | That count equals the value's number of occurrences in the column |
| Metrics.TwoValuesAtMostAll | app.py:129-130 | Rows with two different values together number at most all rows |
| Metrics.TaskSummary | app.py:128-130 | "Total Ticket" is the selection size. Closed Complete and Closed Skipped are their state counts, and together they never exceed the total |
| Metrics.FourStatesAddUp | app.py:345-365 | The four recognised-state counts add up to the number of rows in a recognised state |
| Metrics.RecognizedAtMostAll | app.py:365 | Rows in a recognised state number at most all rows, and all rows exactly when no row has another state |
| Metrics.IncidentSummary | app.py:345-365 | Each state metric is that state's row count, read from the state table with 0 when the state is absent. "Number of tickets" is their sum, at most the selection size, with equality exactly when every row is On Hold, In Progress, Resolved or Closed |
| Metrics.StateTotal | app.py:345-363 | Looking a state up in the state table gives its line's count, and 0 instead of an error when the state has no line |
| Groups.CountOfAbsent | app.py:347-348 | A key with no line in a table looks up as 0 |
| Metrics.AbsentStateHasNoLine | app.py:345-348 | A state no row has gets no line in the state table at all, not a zero line, and its metric is 0 |
| Metrics.MinText | app.py:131 | `min` of the texts is one of them and is at most every one, in string order |
| Metrics.MaxText | app.py:132 | `max` of the texts is one of them and is at least every one, in string order |
| Metrics.DateRange | app.py:332-333 | From and To occur among the rows' `opened_at` texts and bound every one of them in string order. With no rows there is no range |
| Metrics.RangeOfOneValue | app.py:332-333 | When all rows share one `opened_at` value d, the range is (d, d) |
| Metrics.RangeIsTextual | app.py:131-132 | The range compares text: 12/31/2023 and 01/01/2024 give From = the 2024 text and To = the 2023 text |

## Left out

- Streamlit widgets, page configuration, CSS, expanders and the sidebar menu (app.py:35-53, 116-123, 248-262, 282-288). Their drawing is not modelled. The chosen agents and dates are plain parameters.
- Dashboard.ProcessAll: Streamlit raises a duplicate-widget error when one run creates two widgets of the same kind with the same arguments and no `key`, and nothing at app.py:56 catches it. A second `sc_task.csv` upload that gets as far as its sidebar menu therefore raises at the `option_menu` call (app.py:250-256), after its tables are built. Two uploads of either name with the same distinct `assigned_to` values in the same order raise at the `SELECT AGENT:` multiselect, and likewise for `opened_at` at `SELECT DATE:` (app.py:71-82, 268-277), and two `incident.csv` uploads with the same columns raise at the `"Filter: "` multiselect (app.py:283-287). The model gives every upload its own page and does not represent these errors.
- The plotly charts and their layout (app.py:157-244, 392-448). Only the tables they draw are modelled.
- Reading the CSV with `pd.read_csv` (app.py:57). This is file I/O and tokenising. Rows arrive already parsed, and a missing column is not modelled. `read_csv` runs on every upload before the name test, so an unreadable file of any name would raise and end the run; the model has no such failure.
- `pd.to_datetime` format inference (app.py:107, 294). `DateOf` reads the one fixed shape described above. The `Timestamp` year range of pandas (1677-2262) is not modelled. Years 1-9999 are accepted.
- Timestamps.ParseStamp: the hour is read as a twelve-hour clock (01-12) with AM/PM. Python's `%H` in the commented-out format would accept 00-23 and ignore `%p`.
- pandas null handling: `groupby` dropping null keys and `.count()` skipping nulls. Every field is a non-null string, so each count is a group's size.
- Number formatting with `f"{:,.0f}"` (app.py:147-153, 372-384). This is presentation.
- Tie order among equal counts after `sort_values`. It depends on an unstable sort.
- The key order `groupby` produces before `sort_values` re-sorts by count (app.py:99, 161, 302, 307, 318). It cannot be seen after the unstable sort.
- The sort by count applied to the per-day table before its final sort by `Day` (app.py:110, 297). The final sort on distinct dates fixes the order.
- The membership test `'On Hold' in state_counts_df.values` also looks at the integer `Total` column (app.py:345-360). A state name can never match an integer, so it is modelled as a key lookup.
