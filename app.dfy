/** The state `TrainingLogApp` changes: the stored journal with the exercise
    choices offered by the filter, and the record tables opened by "view records"
    and by the filter, whose edits and deletions are written back to the journal. */
module App {
  import opened Wrappers
  import opened Dates
  import opened Text
  import opened Records
  import opened Query
  import opened Csv

  // ---- exercise choices -----------------------------------------------------------

  /** The `exercise` of each entry, in entry order. */
  function Exercises(data: seq<Record>): (names: seq<string>)
    ensures |names| == |data| && forall i :: 0 <= i < |data| ==> names[i] == data[i].exercise
  {
    if data == [] then [] else Exercises(data[..|data| - 1]) + [data[|data| - 1].exercise]
  }

  /** `sorted(set(entry['exercise'] for entry in data))` (line 157). */
  function ExerciseNames(data: seq<Record>): (names: seq<string>)
    ensures StrictlySorted(names)
    ensures forall x :: x in names <==> exists i :: 0 <= i < |data| && data[i].exercise == x
  {
    var all := Exercises(data);
    assert forall x :: x in all <==> exists i :: 0 <= i < |data| && data[i].exercise == x by {
      forall x | x in all ensures exists i :: 0 <= i < |data| && data[i].exercise == x {
        var i :| 0 <= i < |all| && all[i] == x;
        assert data[i].exercise == x;
      }
    }
    SortedDistinct(all)
  }

  /** The choices depend only on which names occur, not on how often or in which order. */
  lemma ExerciseNamesBySet(d1: seq<Record>, d2: seq<Record>)
    requires forall i :: 0 <= i < |d1| ==> exists j :: 0 <= j < |d2| && d2[j].exercise == d1[i].exercise
    requires forall j :: 0 <= j < |d2| ==> exists i :: 0 <= i < |d1| && d1[i].exercise == d2[j].exercise
    ensures ExerciseNames(d1) == ExerciseNames(d2)
  {
    StrictlySortedUnique(ExerciseNames(d1), ExerciseNames(d2));
  }

  // ---- the stored journal -----------------------------------------------------------

  /** The refusals of the entry form and of the table windows ("all fields must be
      filled in", "select a record"). */
  datatype Refusal = EmptyField | NoSelection

  class Journal {
    /** The decoded contents of the journal file; None when it is missing or is not valid JSON. */
    var file: Option<seq<Record>>
    /** The values of the exercise filter's drop-down list. */
    var choices: seq<string>

    /** The window opens with the choices of the stored entries (line 136). */
    constructor (contents: Option<seq<Record>>)
      ensures file == contents && choices == ExerciseNames(Load())
    {
      file := contents;
      new;
      choices := ExerciseNames(Load());
    }

    /** `load_data` (lines 22-36): a missing or undecodable file reads as no entries. */
    function Load(): (data: seq<Record>)
      reads this
    {
      if file.Some? then file.value else []
    }

    /** `save_data` (lines 39-49) replaces the whole file. */
    method Save(data: seq<Record>)
      modifies this
      ensures file == Some(data) && choices == old(choices)
      ensures Load() == data
    {
      file := Some(data);
    }

    /** `update_exercise_filter_combobox` (lines 152-158). */
    method RefreshChoices()
      modifies this
      ensures file == old(file) && choices == ExerciseNames(Load())
    {
      choices := ExerciseNames(Load());
    }

    /** `add_entry` (lines 160-208). `now` is the clock reading of line 165. The entry
        is refused, and nothing changes, when a field is empty; otherwise it is added
        after every stored entry. */
    method AddEntry(now: DateTime, exercise: string, weight: string, repetitions: string)
      returns (r: Result<Record, Refusal>)
      requires Valid(now)
      modifies this
      ensures r == Err(EmptyField) <==> exercise == [] || weight == [] || repetitions == []
      ensures r.Ok? <==> exercise != [] && weight != [] && repetitions != []
      ensures r.Err? ==> file == old(file) && choices == old(choices)
      ensures r.Ok? ==> && r.value == Record(FormatDotted(now), exercise, weight, repetitions)
                        && file == Some(old(Load()) + [r.value])
                        && choices == ExerciseNames(old(Load()) + [r.value])
    {
      var date := FormatDotted(now);
      if !(exercise != [] && weight != [] && repetitions != []) {
        return Err(EmptyField);
      }
      var entry := Record(date, exercise, weight, repetitions);
      var data := Load();
      data := data + [entry];
      Save(data);
      RefreshChoices();
      r := Ok(entry);
    }

    /** `export_to_csv` (lines 331-352) after the file name is chosen: the rows written. */
    method ExportToCsv() returns (rows: seq<seq<string>>)
      ensures rows == ExportRows(Load())
    {
      var data := Load();
      rows := WriteRows(data);
    }

    /** `import_from_csv` (lines 354-391) on the rows of the chosen file. A successful
        import replaces the stored entries; a failed one leaves everything as it was. */
    method ImportFromCsv(rows: seq<seq<string>>) returns (r: Result<seq<Record>, ImportError>)
      modifies this
      ensures r == Imported(rows)
      ensures r.Ok? ==> file == Some(r.value) && choices == ExerciseNames(r.value)
      ensures r.Err? ==> file == old(file) && choices == old(choices)
    {
      r := ReadFile(rows);
      if r.Ok? {
        Save(r.value);
        RefreshChoices();
      }
    }
  }

  /** An entry just added shows up, last, in the filter window for the day it was made. */
  lemma AddedEntryIsListedToday(data: seq<Record>, now: DateTime, exercise: string, weight: string, repetitions: string)
    requires Valid(now) && Canonical(data)
    ensures var e := Record(FormatDotted(now), exercise, weight, repetitions);
      ApplyFilters(data + [e], DateOf(now), DateOf(now), "") == Ok(Where(data, Criteria(DateOf(now), DateOf(now), "")) + [e])
  {
    var e := Record(FormatDotted(now), exercise, weight, repetitions);
    var d := data + [e];
    var c := Criteria(DateOf(now), DateOf(now), "");
    ParseFormatDotted(now);
    assert ParseDotted(e.date) == Some(now);
    assert InPeriod(e, DateOf(now), DateOf(now)) && MatchesExercise(e.exercise, "");
    WhereSnocKept(data, e, c);
    assert Canonical(d) by {
      forall i | 0 <= i < |d| ensures ParseDotted(d[i].date).Some? {
        if i < |data| {
          assert d[i] == data[i];
        }
      }
    }
  }

  // ---- record tables ------------------------------------------------------------------

  /** The table rows that show `data`:  each entry's four values (lines 231-232 and 318-319). */
  function Table(data: seq<Record>): (rows: seq<seq<string>>)
    ensures |rows| == |data| && forall i {:trigger rows[i]} :: 0 <= i < |data| ==> rows[i] == Cells(data[i])
  {
    if data == [] then [] else Table(data[..|data| - 1]) + [Cells(data[|data| - 1])]
  }

  /** Every row holds the four values `values[0]` ... `values[3]` read back at lines 250-255. */
  predicate FourCells(rows: seq<seq<string>>) {
    forall i :: 0 <= i < |rows| ==> |rows[i]| == 4
  }

  /** The entries rebuilt from the rows, in row order (the loop of lines 248-256). */
  function FromTable(rows: seq<seq<string>>): (data: seq<Record>)
    requires FourCells(rows)
    ensures |data| == |rows| && forall i {:trigger data[i]} :: 0 <= i < |rows| ==> data[i] == FromCells(rows[i])
  {
    if rows == [] then [] else FromTable(rows[..|rows| - 1]) + [FromCells(rows[|rows| - 1])]
  }

  /** Rebuilding the entries from the rows that show them gives the same entries. */
  lemma FromTableOfTable(data: seq<Record>)
    ensures FourCells(Table(data)) && FromTable(Table(data)) == data
  {
    var d := FromTable(Table(data));
    forall i | 0 <= i < |data| ensures d[i] == data[i] {
      assert d[i] == FromCells(Cells(data[i]));
    }
  }

  /** An edited row (line 406): the date cell is kept, the other three are replaced. */
  function Edited(row: seq<string>, exercise: string, weight: string, repetitions: string): (r: seq<string>)
    requires |row| == 4
    ensures |r| == 4
    ensures FromCells(r) == FromCells(row).(exercise := exercise, weight := weight, repetitions := repetitions)
  {
    [row[0], exercise, weight, repetitions]
  }

  /** The sequence without its element at `i`; the others keep their order. */
  function RemoveAt<T>(s: seq<T>, i: nat): (r: seq<T>)
    requires i < |s|
    ensures |r| == |s| - 1
    ensures forall j {:trigger r[j]} :: 0 <= j < |r| ==> r[j] == if j < i then s[j] else s[j + 1]
  {
    s[..i] + s[i + 1..]
  }

  /** The positions after a removal at row `i`: those of later rows move down by one. */
  function Reindex(origin: seq<nat>, i: nat): (r: seq<nat>)
    requires i < |origin|
    requires forall a, b :: 0 <= a < b < |origin| ==> origin[a] < origin[b]
    ensures |r| == |origin| - 1
    ensures forall j :: 0 <= j < |r| ==> if j < i then r[j] == origin[j] else r[j] + 1 == origin[j + 1]
  {
    origin[..i] + seq(|origin| - 1 - i, k requires 0 <= k < |origin| - 1 - i =>
                        assert origin[i] < origin[i + k + 1]; origin[i + k + 1] - 1)
  }

  /** Row `i` of `rows` shows entry `origin[i]` of `data`, and the rows keep the journal's order. */
  ghost predicate Mirrors(rows: seq<seq<string>>, origin: seq<nat>, data: seq<Record>) {
    && |rows| == |origin|
    && (forall i :: 0 <= i < |rows| ==> origin[i] < |data| && rows[i] == Cells(data[origin[i]]))
    && (forall a, b :: 0 <= a < b < |origin| ==> origin[a] < origin[b])
  }

  /** The rows of a selection show the entries it was taken from. */
  lemma SelectionMirrors(shown: seq<Record>, data: seq<Record>, keep: seq<nat>)
    requires Sequences.Embedding(shown, data, keep)
    ensures Mirrors(Table(shown), keep, data)
  {
  }

  /** Writing an edit through to the entry a row shows keeps the window true to the journal. */
  lemma MirrorsAfterEdit(rows: seq<seq<string>>, origin: seq<nat>, data: seq<Record>, i: nat, changed: Record)
    requires Mirrors(rows, origin, data) && i < |rows|
    ensures Mirrors(rows[i := Cells(changed)], origin, data[origin[i] := changed])
  {
    var rows', data' := rows[i := Cells(changed)], data[origin[i] := changed];
    forall j | 0 <= j < |rows| ensures rows'[j] == Cells(data'[origin[j]]) {
      if j < i {
        assert origin[j] < origin[i];
      } else if j > i {
        assert origin[i] < origin[j];
      }
    }
  }

  /** Removing a row and the entry it shows keeps the window true to the journal. */
  lemma MirrorsAfterRemove(rows: seq<seq<string>>, origin: seq<nat>, data: seq<Record>, i: nat)
    requires Mirrors(rows, origin, data) && i < |rows|
    ensures Mirrors(RemoveAt(rows, i), Reindex(origin, i), RemoveAt(data, origin[i]))
  {
    var rows', origin', data' := RemoveAt(rows, i), Reindex(origin, i), RemoveAt(data, origin[i]);
    forall j | 0 <= j < |rows'| ensures origin'[j] < |data'| && rows'[j] == Cells(data'[origin'[j]]) {
      if j < i {
        assert origin[j] < origin[i];
        assert rows'[j] == rows[j] && origin'[j] == origin[j];
      } else {
        assert origin[i] < origin[j + 1];
        assert rows'[j] == rows[j + 1] && origin'[j] + 1 == origin[j + 1];
        assert data'[origin'[j]] == data[origin[j + 1]];
      }
    }
    forall a, b | 0 <= a < b < |origin'| ensures origin'[a] < origin'[b] {
      if b < i {
        assert origin'[a] == origin[a] && origin'[b] == origin[b];
      } else if a < i {
        assert origin'[a] == origin[a] && origin'[b] + 1 == origin[b + 1];
        assert origin[a] < origin[i] < origin[b + 1];
      } else {
        assert origin'[a] + 1 == origin[a + 1] && origin'[b] + 1 == origin[b + 1];
        assert origin[a + 1] < origin[b + 1];
      }
    }
  }

  /** The insertion loop that fills a table (lines 231-232 and 318-319). */
  method TableRows(data: seq<Record>) returns (rows: seq<seq<string>>)
    ensures rows == Table(data)
  {
    rows := [];
    var i := 0;
    while i < |data|
      invariant 0 <= i <= |data|
      invariant rows == Table(data[..i])
    {
      assert data[..i + 1][..i] == data[..i];
      rows := rows + [Cells(data[i])];
      i := i + 1;
    }
    assert data[..i] == data;
  }

  /** A window listing entries, with the position in the journal of the entry each row shows. */
  class RecordsWindow {
    /** The values of the table's items, top to bottom. */
    var rows: seq<seq<string>>
    /** For each row, the position in the stored journal of the entry it shows. */
    var origin: seq<nat>

    /** Every row shows the entry of `data` its origin names, in the journal's order. */
    ghost predicate Shows(data: seq<Record>)
      reads this
    {
      Mirrors(rows, origin, data)
    }

    /** `view_records` (lines 210-242): one row per stored entry. */
    constructor Full(data: seq<Record>)
      ensures rows == Table(data) && Shows(data)
      ensures forall i :: 0 <= i < |origin| ==> origin[i] == i
    {
      var r := TableRows(data);
      var o: seq<nat> := seq(|data|, i => i);
      SelectionMirrors(data, data, o);
      rows := r;
      origin := o;
    }

    /** The window of `apply_filters` (lines 304-329) on the selection the filter made,
        remembering where each shown entry sits in the journal. An empty selection
        opens no window (lines 300-302). */
    constructor Filtered(data: seq<Record>, start: Date, end: Date, filter: string)
      requires ApplyFilters(data, start, end, filter).Ok? && ApplyFilters(data, start, end, filter).value != []
      ensures rows == Table(ApplyFilters(data, start, end, filter).value) && Shows(data)
    {
      var c := Criteria(start, end, filter);
      var shown := Where(data, c);
      assert shown == ApplyFilters(data, start, end, filter).value;
      var r := TableRows(shown);
      var keep := WhereIndices(data, c);
      WhereExactly(data, c);
      SelectionMirrors(shown, data, keep);
      assert Mirrors(r, keep, data);
      rows := r;
      origin := keep;
    }

    /** `save_table_data` (lines 244-258): the journal becomes the entries the rows show. */
    method SaveTableData(store: Journal)
      requires FourCells(rows)
      modifies store
      ensures store.file == Some(FromTable(rows)) && store.choices == old(store.choices)
    {
      var data: seq<Record> := [];
      var k := 0;
      while k < |rows|
        invariant 0 <= k <= |rows|
        invariant data == FromTable(rows[..k])
      {
        var values := rows[k];
        assert rows[..k + 1][..k] == rows[..k];
        data := data + [Record(values[0], values[1], values[2], values[3])];
        k := k + 1;
      }
      assert rows[..k] == rows;
      store.Save(data);
    }

    /** `edit_entry` and `save_changes` (lines 393-413 and 415-453), as written: the row
        is changed and the whole journal is rebuilt from the table. */
    method SaveChangesByRebuild(store: Journal, selection: Option<nat>,
                                exercise: string, weight: string, repetitions: string)
      returns (r: Result<(), Refusal>)
      requires FourCells(rows) && (selection.Some? ==> selection.value < |rows|)
      modifies this, store
      ensures selection.None? ==> r == Err(NoSelection)
      ensures selection.Some? && (exercise == [] || weight == [] || repetitions == []) ==> r == Err(EmptyField)
      ensures r.Ok? <==> selection.Some? && exercise != [] && weight != [] && repetitions != []
      ensures r.Err? ==> rows == old(rows) && origin == old(origin) && store.file == old(store.file)
      ensures r.Ok? ==> && rows == old(rows)[selection.value := Edited(old(rows)[selection.value], exercise, weight, repetitions)]
                        && origin == old(origin) && FourCells(rows) && store.file == Some(FromTable(rows))
      ensures store.choices == old(store.choices)
    {
      if selection.None? {
        return Err(NoSelection);
      }
      if !(exercise != [] && weight != [] && repetitions != []) {
        return Err(EmptyField);
      }
      var i := selection.value;
      rows := rows[i := Edited(rows[i], exercise, weight, repetitions)];
      SaveTableData(store);
      r := Ok(());
    }

    /** `delete_entry` (lines 455-471), as written: the row is removed and the whole
        journal is rebuilt from the table. `origin` is left as it was, one position
        longer than the rows: after a rebuild the rows no longer point into the journal. */
    method DeleteEntryByRebuild(store: Journal, selection: Option<nat>) returns (r: Result<(), Refusal>)
      requires FourCells(rows) && (selection.Some? ==> selection.value < |rows|)
      modifies this, store
      ensures selection.None? <==> r == Err(NoSelection)
      ensures r.Ok? <==> selection.Some?
      ensures r.Err? ==> rows == old(rows) && origin == old(origin) && store.file == old(store.file)
      ensures r.Ok? ==> && rows == RemoveAt(old(rows), selection.value) && origin == old(origin)
                        && FourCells(rows) && store.file == Some(FromTable(rows))
      ensures store.choices == old(store.choices)
    {
      if selection.None? {
        return Err(NoSelection);
      }
      rows := RemoveAt(rows, selection.value);
      SaveTableData(store);
      r := Ok(());
    }

    /** Editing, written through to the entry the row shows: only that entry of the
        journal changes, whichever window the row is in. */
    method SaveChanges(store: Journal, selection: Option<nat>,
                       exercise: string, weight: string, repetitions: string)
      returns (r: Result<(), Refusal>)
      requires Shows(store.Load()) && (selection.Some? ==> selection.value < |rows|)
      modifies this, store
      ensures selection.None? ==> r == Err(NoSelection)
      ensures selection.Some? && (exercise == [] || weight == [] || repetitions == []) ==> r == Err(EmptyField)
      ensures r.Ok? <==> selection.Some? && exercise != [] && weight != [] && repetitions != []
      ensures r.Err? ==> rows == old(rows) && origin == old(origin) && store.file == old(store.file)
      ensures r.Ok? ==> var i := selection.value;
                        && rows == old(rows)[i := Edited(old(rows)[i], exercise, weight, repetitions)]
                        && origin == old(origin)
                        && store.file == Some(old(store.Load())[origin[i] := Record(old(store.Load())[origin[i]].date, exercise, weight, repetitions)])
      ensures Shows(store.Load()) && store.choices == old(store.choices)
    {
      if selection.None? {
        return Err(NoSelection);
      }
      if !(exercise != [] && weight != [] && repetitions != []) {
        return Err(EmptyField);
      }
      var i := selection.value;
      var data := store.Load();
      var entry := data[origin[i]];
      var changed := Record(entry.date, exercise, weight, repetitions);
      MirrorsAfterEdit(rows, origin, data, i, changed);
      assert Cells(changed) == Edited(rows[i], exercise, weight, repetitions);
      rows := rows[i := Edited(rows[i], exercise, weight, repetitions)];
      store.Save(data[origin[i] := changed]);
      r := Ok(());
    }

    /** Deleting, written through: exactly the entry the row shows leaves the journal. */
    method DeleteEntry(store: Journal, selection: Option<nat>) returns (r: Result<(), Refusal>)
      requires Shows(store.Load()) && (selection.Some? ==> selection.value < |rows|)
      modifies this, store
      ensures selection.None? <==> r == Err(NoSelection)
      ensures r.Ok? <==> selection.Some?
      ensures r.Err? ==> rows == old(rows) && origin == old(origin) && store.file == old(store.file)
      ensures r.Ok? ==> var i := selection.value;
                        && rows == RemoveAt(old(rows), i)
                        && origin == Reindex(old(origin), i)
                        && store.file == Some(RemoveAt(old(store.Load()), old(origin)[i]))
      ensures Shows(store.Load()) && store.choices == old(store.choices)
    {
      if selection.None? {
        return Err(NoSelection);
      }
      var i := selection.value;
      var data := store.Load();
      MirrorsAfterRemove(rows, origin, data, i);
      var remaining := RemoveAt(data, origin[i]);
      rows := RemoveAt(rows, i);
      origin := Reindex(origin, i);
      store.Save(remaining);
      r := Ok(());
    }
  }

  // ---- what rebuilding does -----------------------------------------------------------

  /** In the "view records" window, rebuilding after an edit changes exactly the edited
      entry, keeping its date: the rebuild agrees with writing through. */
  lemma RebuildAfterEditOfFullView(data: seq<Record>, i: nat, exercise: string, weight: string, repetitions: string)
    requires i < |data|
    ensures var rows := Table(data)[i := Edited(Cells(data[i]), exercise, weight, repetitions)];
      FourCells(rows) && FromTable(rows) == data[i := Record(data[i].date, exercise, weight, repetitions)]
  {
    var rows := Table(data)[i := Edited(Cells(data[i]), exercise, weight, repetitions)];
    var want := data[i := Record(data[i].date, exercise, weight, repetitions)];
    RebuildShows(rows, want);
  }

  /** In the "view records" window, rebuilding after a deletion removes exactly the
      deleted entry and keeps the others in order. */
  lemma RebuildAfterDeleteOfFullView(data: seq<Record>, i: nat)
    requires i < |data|
    ensures FourCells(RemoveAt(Table(data), i)) && FromTable(RemoveAt(Table(data), i)) == RemoveAt(data, i)
  {
    var rows, want := RemoveAt(Table(data), i), RemoveAt(data, i);
    forall j | 0 <= j < |rows| ensures rows[j] == Cells(want[j]) {
      RowAfterRemove(data, i, j);
    }
    RebuildShows(rows, want);
  }

  lemma RowAfterRemove(data: seq<Record>, i: nat, j: nat)
    requires i < |data| && j < |data| - 1
    ensures RemoveAt(Table(data), i)[j] == Cells(RemoveAt(data, i)[j])
  {
    var from := if j < i then j else j + 1;
    assert RemoveAt(Table(data), i)[j] == Table(data)[from];
    assert RemoveAt(data, i)[j] == data[from];
  }

  /** Rows that show some entries rebuild into exactly those entries. */
  lemma RebuildShows(rows: seq<seq<string>>, data: seq<Record>)
    requires |rows| == |data| && forall j :: 0 <= j < |rows| ==> rows[j] == Cells(data[j])
    ensures FourCells(rows) && FromTable(rows) == data
  {
    var got := FromTable(rows);
    forall j | 0 <= j < |data| ensures got[j] == data[j] {
      FromCellsOfCells(data[j]);
    }
  }

  /** Rebuilding from the rows of a selection shorter than the journal, after an edit
      or a deletion, leaves fewer entries than the journal held. */
  lemma RebuildOfSelectionIsShort(shown: seq<Record>, n: nat, k: nat, exercise: string, weight: string, repetitions: string)
    requires |shown| < n && k < |shown|
    ensures var rows := Table(shown);
      var edited := rows[k := Edited(rows[k], exercise, weight, repetitions)];
      && FourCells(edited) && |FromTable(edited)| < n
      && FourCells(RemoveAt(rows, k)) && |FromTable(RemoveAt(rows, k))| < n - 1
  {
    var rows := Table(shown);
    var edited, removed := rows[k := Edited(rows[k], exercise, weight, repetitions)], RemoveAt(rows, k);
    assert FourCells(edited) by {
      forall j | 0 <= j < |edited| ensures |edited[j]| == 4 {
        if j != k {
          assert edited[j] == Cells(shown[j]);
        }
      }
    }
    assert FourCells(removed) by {
      forall j | 0 <= j < |removed| ensures |removed[j]| == 4 {
        assert removed[j] == rows[if j < k then j else j + 1];
      }
    }
  }

  /** In the filter window the rebuild loses every entry the filter did not show: when
      the journal holds an entry outside the period or of another exercise, saving an
      edit of row `k` leaves fewer entries than before, and deleting row `k` removes
      more than one. */
  lemma FilteredRebuildLosesEntries(data: seq<Record>, start: Date, end: Date, filter: string, miss: nat, k: nat,
                                    exercise: string, weight: string, repetitions: string)
    requires ApplyFilters(data, start, end, filter).Ok?
    requires miss < |data| && !(InPeriod(data[miss], start, end) && MatchesExercise(data[miss].exercise, filter))
    requires k < |ApplyFilters(data, start, end, filter).value|
    ensures var shown := Table(ApplyFilters(data, start, end, filter).value);
      var edited := shown[k := Edited(shown[k], exercise, weight, repetitions)];
      && FourCells(edited) && |FromTable(edited)| < |data|
      && FourCells(RemoveAt(shown, k)) && |FromTable(RemoveAt(shown, k))| < |data| - 1
  {
    var c := Criteria(start, end, filter);
    assert ApplyFilters(data, start, end, filter).value == Where(data, c);
    WhereDropsMisses(data, c, miss);
    RebuildOfSelectionIsShort(Where(data, c), |data|, k, exercise, weight, repetitions);
  }
}
