# Training journal: a verified model of the record-list core

`Training_journal.py` is a Tkinter training diary. It keeps a list of entries
`(date, exercise, weight, repetitions)` in a JSON file. The window lets the user:

- add an entry stamped with the current time;
- list all entries, or the entries of a date range and exercise;
- edit or delete listed entries;
- see per-exercise statistics and a progress chart;
- export the journal to CSV and import it back.

This project models that logic in Dafny and proves what the program promises about it.

| file | module | models |
|---|---|---|
| `dates.dfy` | `Dates` | the `DD.MM.YYYY HH:MM:SS` timestamps written by `add_entry` and parsed by the filter, the legacy `YYYY-MM-DD HH:MM:SS` form accepted on import, and calendar-date order |
| `text.dfy` | `Text` | `str.lower()` for the filter, and Python string order and `sorted(set(...))` for the exercise list |
| `records.dfy` | `Records` | one stored entry and its four-cell row |
| `sequences.dfy` | `Sequences` | order-preserving subsequences |
| `query.dfy` | `Query` | the date-range and exercise filter shared by `apply_filters` and `view_progress`, with its refusals |
| `grouping.dfy` | `Grouping` | the number conversion and per-name grouping shared by the statistics and the chart |
| `stats.dfy` | `Stats` | the loop of `view_exercise_stats` and the five values it keeps per name |
| `progress.dfy` | `Progress` | the loop of `view_progress` that builds three aligned lists per name |
| `csv.dfy` | `Csv` | the rows `export_to_csv` writes and how `import_from_csv` reads them back |
| `app.dfy` | `App` | the journal store with its exercise choices (`class Journal`), and the record tables whose edits and deletions are saved (`class RecordsWindow`) |

Entries keep their four fields as text, as the JSON file does. `float()` and `int()`
are parameters (`toWeight`, `toReps`) that return `None` where Python raises
`ValueError`. The statistics and the chart therefore stop at the first entry that
does not convert, as the source does. `datetime.now()` is the parameter `now` of
`AddEntry`. The journal file is an `Option`: `None` stands for a missing or
undecodable file, which `load_data` reads as no entries.

## Model

| member | source | states |
|---|---|---|
| Dates.DateLeIsTotalOrder | Training_journal.py:286-288 | the calendar-date comparison used by the filter is reflexive, antisymmetric, transitive and total |
| Dates.FormatDotted | Training_journal.py:165 | the timestamp written for a new entry always has the fixed width of 19 characters |
| Dates.ParseFormatDotted | Training_journal.py:165 | parsing a timestamp written at line 165 gives back the same six components |
| Dates.ParseDotted | Training_journal.py:295-296 | the filter's `strptime(..., '%d.%m.%Y %H:%M:%S')` on zero-padded fields: every time it accepts is a valid calendar date and clock time |
| Dates.FormatParseDotted | Training_journal.py:295-296 | the dotted form is canonical: every string the fixed-width dotted parser accepts is the formatting of what it denotes |
| Dates.ParseFormatIso | Training_journal.py:376 | parsing a legacy `YYYY-MM-DD HH:MM:SS` timestamp that was written from a valid time gives back the same six components |
| Dates.ParseIso | Training_journal.py:376 | the import's `strptime(..., '%Y-%m-%d %H:%M:%S')` on zero-padded fields: every time it accepts is a valid calendar date and clock time |
| Dates.FormsAreDisjoint | Training_journal.py:371-376 | no string is in both forms, so the import never has to choose between them |
| Dates.Normalise | Training_journal.py:371-376 | a dotted date is kept unchanged; a legacy date becomes a dotted date denoting the same time; anything else fails; every result parses in the dotted form |
| Dates.NormaliseIso | Training_journal.py:376 | a legacy timestamp is rewritten as the dotted timestamp with the same six components |
| Text.Lower | Training_journal.py:297 | the modelled `lower()` maps each character on its own, position by position |
| Text.LessIrreflexive | Training_journal.py:157 | Python string order is irreflexive |
| Text.LessTransitive | Training_journal.py:157 | Python string order is transitive |
| Text.LessTotal | Training_journal.py:157 | any two different strings are ordered one way or the other |
| Text.Insert | Training_journal.py:157 | inserting a name into a strictly sorted list keeps it strictly sorted and adds exactly that name |
| Text.SortedDistinct | Training_journal.py:157 | `sorted(set(names))` is strictly sorted and holds exactly the given names |
| Text.StrictlySortedDistinct | Training_journal.py:157 | a strictly sorted list has no repeated name |
| Text.StrictlySortedUnique | Training_journal.py:157 | two strictly sorted lists with the same members are equal, so `sorted(set(...))` depends only on the set |
| Records.Cells | Training_journal.py:232 | a table or CSV row has four cells |
| Records.FromCells | Training_journal.py:250-255 | the entry rebuilt from a row's four values shows that same row |
| Query.InPeriod | Training_journal.py:295-296 | an entry is in the period when its date parses in the dotted form and its calendar day lies between the start and end days, both included |
| Query.MatchesExercise | Training_journal.py:297 | an empty filter passes every name; otherwise the lower-cased name must equal the lower-cased filter |
| Query.Holds | Training_journal.py:294-297 | the filter's criterion: an entry passes when it passes both the period and the name condition |
| Query.Where | Training_journal.py:294-297 | the selection of the entries that pass, in journal order; it is never longer than the journal |
| Query.WhereExactly | Training_journal.py:294-297 | the filter result is an order-preserving subsequence of the journal, and it takes exactly the positions whose entry passes |
| Query.WhereKeepsOnlyMatches | Training_journal.py:294-297 | every kept entry passes the criterion |
| Query.WhereAllMatch | Training_journal.py:294-297 | when every entry passes, nothing is dropped |
| Query.WhereDropsMisses | Training_journal.py:294-297 | a selection that leaves out some entry is shorter than the journal |
| Query.WhereIdempotent | Training_journal.py:294-297 | filtering twice with the same criterion is filtering once |
| Query.WhereAnd | Training_journal.py:294-297 | filtering by both conditions is filtering by the date range and then by the exercise |
| Query.WhereCommutes | Training_journal.py:294-297 | the two conditions can be applied in either order |
| Query.WhereSameHolds | Training_journal.py:294-297 | criteria that accept the same entries select the same list |
| Query.ApplyFilters | Training_journal.py:278-297 | start after end is refused; for a valid range, a stored date that does not parse is refused (the `strptime` of line 295 raises); otherwise the result holds exactly the stored entries dated within the range whose lower-cased name equals the lower-cased filter or the filter is empty |
| Query.WhereMembers | Training_journal.py:294-297 | an entry value is in the result exactly when it is in the journal and passes |
| Query.ApplyFiltersNothingFound | Training_journal.py:300-302 | the "nothing found" case is an empty result, not a refusal, and happens exactly when the range is valid, every stored date parses and no entry passes |
| Query.ApplyFiltersIdempotent | Training_journal.py:294-297 | applying the filter to its own result gives that result again |
| Query.EmptyFilterIsPeriodOnly | Training_journal.py:297 | with no exercise chosen the filter is the date-range filter alone |
| Grouping.Convert | Training_journal.py:483-486 | conversion succeeds exactly when every entry converts; it then yields one sample per entry; otherwise it reports the first entry that does not convert |
| Grouping.ConvertAt | Training_journal.py:484-486 | each sample carries the name and converted fields of its own entry |
| Grouping.ConvertSnoc | Training_journal.py:483-486 | converting one entry more extends the samples by that entry, or fails at that entry |
| Grouping.ConvertFailsAt | Training_journal.py:483-486 | the first entry that does not convert is the failure of the whole loop |
| Grouping.GroupExactly | Training_journal.py:484-488 | a name's group is exactly the samples carrying that exact name, in their original order |
| Grouping.Keys | Training_journal.py:488 | the dictionary keys are exactly the names that occur, each once |
| Grouping.First | Training_journal.py:488 | the position of the first sample carrying a name, or the number of samples when none does: no earlier sample carries it |
| Grouping.KeysInFirstOrder | Training_journal.py:488 | the keys stand in the order of their names' first appearance |
| Grouping.GroupOfAbsent | Training_journal.py:488 | a name that never occurs has an empty group |
| Grouping.GroupsPartition | Training_journal.py:483-499 | every sample is in exactly one group: the group sizes add up to the number of samples |
| Stats.MaxWeightIsMaximum | Training_journal.py:489-505 | `max_weight` is at least 0 and at least every weight of the group, and it is 0 or one of those weights |
| Stats.MaxRepsIsMaximum | Training_journal.py:489-505 | `max_repetitions` is at least 0 and at least every count of the group, and it is 0 or one of those counts |
| Stats.StatOfSnoc | Training_journal.py:497-505 | one pass of the loop body turns the statistics of a group into those of the group plus one set |
| Stats.Accumulate | Training_journal.py:497-505 | one set adds one to the set count and its volume and repetitions to the totals; each maximum is at least its old value and the set's value, and is one of the two |
| Stats.FileFilesOneName | Training_journal.py:488-505 | filing a sample touches only its own name: the name is present afterwards, it joins the key order at the end only when it is new, the other names keep their statistics, and its set count grows by one |
| Stats.FileOne | Training_journal.py:488-505 | one pass of the loop body updates the dictionary in place exactly as filing the sample does |
| Stats.FileAllIsRollup | Training_journal.py:483-505 | filing every sample in order gives the per-name statistics of exactly the samples carrying each name, keyed in order of first appearance |
| Stats.FileStep | Training_journal.py:483-505 | one loop pass converts the next entry and files its sample |
| Stats.FileKeepsRollup | Training_journal.py:484-505 | filing one more entry keeps the dictionary equal to the per-name statistics of the entries seen so far |
| Stats.ExerciseStats | Training_journal.py:483-505 | the loop fails at the first entry whose weight or repetitions do not convert; otherwise it returns the samples filed in order, whose keys are the names in order of first appearance (Grouping.KeysInFirstOrder), and each name's volume, repetition total, set count and maxima are those of exactly the entries carrying that name |
| Stats.SetsAddUp | Training_journal.py:499 | the set counts over all names add up to the number of entries |
| Stats.SquatScenario | Training_journal.py:497-505 | two Squat sets of 100 x 5 and 110 x 3 give volume 830, repetitions 8, 2 sets, maximum weight 110 and maximum repetitions 5 |
| Progress.SeriesOf | Training_journal.py:584-588 | a name's three lists have the same length as its group, and point `i` of each comes from sample `i` |
| Progress.PlotKeepsChart | Training_journal.py:583-588 | filing one more entry keeps the chart data equal to the per-name lists of the entries seen so far |
| Progress.PlotFilesOneName | Training_journal.py:583-588 | filing a sample touches only its own name: the name is present afterwards, it joins the key order at the end only when it is new, the other names keep their lists, and its three lists end with the sample's date, weight and repetitions |
| Progress.PlotOne | Training_journal.py:583-588 | one pass of the loop body updates the dictionary in place exactly as filing the sample does |
| Progress.PlotAllIsChart | Training_journal.py:577-588 | filing every sample in order gives, for each name in order of first appearance, the points of exactly the samples carrying it |
| Progress.PlotStep | Training_journal.py:577-588 | one loop pass converts the next entry and files its sample |
| Progress.ProgressSeries | Training_journal.py:577-588 | the loop fails at the first entry that does not convert; otherwise it returns the samples filed in order: for each name in order of first appearance (Grouping.KeysInFirstOrder), the dates, weights and repetitions of exactly that name's entries, in filtered order |
| Progress.ViewProgress | Training_journal.py:539-588 | the filter's refusals are reported; an empty selection is "nothing found"; otherwise the lists are built from the selection |
| Progress.PointsAreGroupSizes | Training_journal.py:583-588 | the list lengths over any set of names are that set's group sizes |
| Progress.ChartPoint | Training_journal.py:584-588 | point `i` of a name's line is the date of sample `i` of that name's group |
| Progress.EveryEntryPlottedOnce | Training_journal.py:577-588 | the list lengths over all names add up to the number of filtered entries |
| Progress.PointComesFromEntry | Training_journal.py:577-588 | every point is the converted date of an entry carrying that name |
| Progress.PlottedPointsPassFilter | Training_journal.py:564-588 | every plotted point lies in the chosen date range, its name passes the exercise filter, and it comes from a stored entry with that name and date |
| Csv.ExportRows | Training_journal.py:347-350 | the export holds one header row, then one row per entry in journal order, with cells date, exercise, weight, repetitions |
| Csv.WriteRows | Training_journal.py:347-350 | the writing loop produces exactly those rows |
| Csv.ReadRow | Training_journal.py:370-376 | a row without four cells is refused; a row whose date is in neither form is refused; otherwise the row becomes the entry with the same other fields and a dotted date denoting the same time |
| Csv.ReadEach | Training_journal.py:369-383 | reading succeeds exactly when every row reads, giving one entry per row in order; otherwise it reports the first refused row |
| Csv.Imported | Training_journal.py:365-383 | an empty file is refused (`next(reader)`); otherwise the header is skipped and each following row gives one entry in order, or the import fails at the first bad row |
| Csv.ReadFile | Training_journal.py:365-383 | the reading loop computes exactly that import |
| Csv.ReadOne | Training_journal.py:369-376 | one pass of the loop body reads a row exactly as `ReadRow` does |
| Csv.ReadStep | Training_journal.py:369-382 | one more accepted row extends the entries read so far by that row's entry |
| Csv.ReadEachFailsAt | Training_journal.py:369-383 | the first refused row is the failure of the whole read |
| Csv.ImportedIsCanonical | Training_journal.py:371-376 | every imported date is in the dotted form, so the filter can parse all of them |
| Csv.ExportThenImport | Training_journal.py:347-383 | exporting entries whose dates are dotted and importing the file gives the same entries |
| Csv.ImportIsStable | Training_journal.py:347-383 | import, export, import gives the result of the first import |
| Csv.LegacyRowImport | Training_journal.py:371-376 | a row with a legacy timestamp imports with that timestamp rewritten in the dotted form |
| App.ExerciseNames | Training_journal.py:157 | the drop-down list is strictly sorted, so it has no duplicates, and it holds exactly the names of the stored entries |
| App.Exercises | Training_journal.py:157 | the names of the entries, one per entry, in entry order |
| App.ExerciseNamesBySet | Training_journal.py:157 | journals that use the same names give the same list |
| App.Journal.constructor | Training_journal.py:134-136 | the window opens with the choices of the stored entries |
| App.Journal.Load | Training_journal.py:22-36 | definition: the journal read back from the file, or no entries when the file is missing or undecodable |
| App.Journal.Save | Training_journal.py:39-49 | saving replaces the whole file, and loading afterwards gives back exactly the saved entries |
| App.Journal.RefreshChoices | Training_journal.py:152-158 | the choices become those of the stored entries |
| App.Journal.AddEntry | Training_journal.py:160-208 | the entry is accepted exactly when all three fields are filled in; an entry with an empty field is refused and nothing changes; otherwise exactly one entry, stamped with the current time in the dotted form, is added after all stored entries, and the choices are refreshed |
| App.Journal.ExportToCsv | Training_journal.py:331-352 | the exported rows are those of the stored entries |
| App.Journal.ImportFromCsv | Training_journal.py:354-391 | a successful import replaces the stored entries with the imported ones and refreshes the choices; a failed one changes nothing |
| App.AddedEntryIsListedToday | Training_journal.py:160-208 | a new entry shows up, last, in the filter window for the day it was made |
| App.Table | Training_journal.py:231-232 | the table shows one row per entry, holding that entry's four values |
| App.TableRows | Training_journal.py:231-232 | the insertion loop fills exactly that table |
| App.FromTable | Training_journal.py:248-256 | rebuilding gives one entry per row, in row order |
| App.FromTableOfTable | Training_journal.py:248-256 | rebuilding from the rows that show some entries (built at lines 231-232) gives those entries back |
| App.Edited | Training_journal.py:406-407 | read back as an entry, the edited row is the old row's entry with the exercise, the weight and the repetitions replaced and the date kept |
| App.RemoveAt | Training_journal.py:466 | removing a row keeps all other rows in order |
| App.SelectionMirrors | Training_journal.py:318-319 | the rows of a selection show the entries at the positions they were taken from |
| App.MirrorsAfterEdit | Training_journal.py:406-410 | writing an edit through to the entry a row shows keeps the window true to the journal |
| App.MirrorsAfterRemove | Training_journal.py:466-469 | removing a row and the entry it shows keeps the window true to the journal |
| App.RecordsWindow.Full | Training_journal.py:210-242 | the "view records" window shows every stored entry in order |
| App.RecordsWindow.Filtered | Training_journal.py:300-329 | the filter window, opened only on a non-empty selection, shows the filter's result, each row linked to the journal position of its entry |
| App.RecordsWindow.SaveTableData | Training_journal.py:244-258 | the journal becomes exactly the entries the rows show, in row order |
| App.RecordsWindow.SaveChangesByRebuild | Training_journal.py:393-423 | as written: the save succeeds exactly when a row is selected and all three fields are filled in; with no selection or an empty field nothing changes; otherwise the row is edited and the journal is rebuilt from all rows |
| App.RecordsWindow.DeleteEntryByRebuild | Training_journal.py:455-471 | as written: the deletion succeeds exactly when a row is selected; with no selection nothing changes; otherwise the row is deleted and the journal is rebuilt from all rows |
| App.RecordsWindow.SaveChanges | Training_journal.py:393-423 | the save succeeds exactly when a row is selected and all three fields are filled in; with no selection or an empty field nothing changes; otherwise only the entry the row shows changes, it keeps its date, and the window stays true to the journal |
| App.RecordsWindow.DeleteEntry | Training_journal.py:455-471 | the deletion succeeds exactly when a row is selected; with no selection nothing changes; otherwise exactly the entry the row shows is removed, the others keep their order, and the window stays true to the journal |
| App.RebuildAfterEditOfFullView | Training_journal.py:406-410 | in the "view records" window, rebuilding after an edit changes only the edited entry, which keeps its date |
| App.RebuildAfterDeleteOfFullView | Training_journal.py:466-469 | in the "view records" window, rebuilding after a deletion removes exactly the deleted entry and keeps the others in order |
| App.RebuildShows | Training_journal.py:248-256 | rows that show some entries rebuild into exactly those entries |
| App.RowAfterRemove | Training_journal.py:466 | after a removal, each remaining row shows the corresponding remaining entry |
| App.RebuildOfSelectionIsShort | Training_journal.py:244-258 | rebuilding from the rows of a shorter selection, after an edit or a deletion, leaves fewer entries than the journal held |
| App.FilteredRebuildLosesEntries | Training_journal.py:244-329 | in the filter window, when some stored entry is outside the selection, saving an edit loses entries and deleting one row removes more than one entry |

## Left out

- Tkinter widgets, layout, message boxes and the event loop are not modelled. A refusal is an `Err` value, and the calendar inputs are `Date` values.
- JSON reading and writing is not modelled. The journal file is an `Option` of entries.
- The file dialogs and the `csv` module's quoting rules are not modelled. A CSV file is a sequence of rows of cell texts.
- `float()` and `int()` are parameters, and floating-point rounding is not modelled: weight times repetitions is exact arithmetic on `real`.
- `datetime.now()` is a parameter. The journal cannot see the clock.
- `strptime` also accepts fields that are not zero-padded. Only the fixed-width forms that `strftime` writes are modelled. A stored date in another accepted spelling is treated as unparseable.
- `Csv.ReadRow`: the `strptime` of line 373 also accepts a dotted date whose fields are not zero-padded, and the import then keeps that text. `ReadRow` refuses such a row with `BadDate`, so the model fails an import that the source completes. The same holds for a non-padded ISO date, which the `strptime` of line 376 also accepts.
- `Text.LowerChar`: `str.lower()` is modelled for the ASCII capitals and the Cyrillic block U+0400-U+042F only. Every other character, including accented Latin capitals such as 'É' and Cyrillic capitals outside that block such as 'Ґ', passes through unchanged.
- `Text.Lower`: Python's `lower()` can change the length of a string ('İ', U+0130, becomes two characters). The model maps one character to one character.
- Plotly figure building and display (lines 590-611) are not modelled. The model stops at the `progress_data` dictionary.
- Tk converts item values read back by `tree.item(...)['values']`: a weight `"75"` comes back as the integer 75, and JSON then stores a number. This is not modelled. Cells stay text.
- Only a single selected row is modelled. The tree allows selecting several rows, but `tree.item` on several rows is not meaningful.
- After an edit or a deletion the exercise choices are not refreshed, as in the source. `SaveChanges` and its siblings keep `choices` unchanged.
- `App.Journal.ImportFromCsv`: an import replaces the whole journal, as the source does. It does not merge with the stored entries.
- The weights and repetition counts stay strings with conversion parameters. They are not stored as numbers. This keeps the failure point of the statistics and chart loops in the model.

## Findings

| source | as written | input that shows it | evidently intended | confidence | as-written member | corrected member |
|---|---|---|---|---|---|---|
| Training_journal.py:244-258, 316-329 | The filter window's Edit and Delete buttons call `save_table_data` on that window's tree. It rebuilds and saves the journal from the filtered rows alone, so every entry outside the filter is deleted from the file. | Journal `[01.01.2024 10:00:00 Squat 100 5, 02.01.2024 10:00:00 Squat 110 3]`, range 02.01.2024-02.01.2024, edit the only shown row. The saved journal has one entry. | Only the edited or deleted entry changes. Every other stored entry is kept in its place. | not executed | App.FilteredRebuildLosesEntries | App.RecordsWindow.SaveChanges |
