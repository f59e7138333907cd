/** CSV export and import (`export_to_csv`, lines 331-352, and `import_from_csv`,
    lines 354-391), over the rows the csv module writes and reads: a file is a
    sequence of rows, a row a sequence of cell texts. */
module Csv {
  import opened Wrappers
  import opened Dates
  import opened Records

  /** The column titles written first (line 348). */
  const Header: seq<string> := ["Дата", "Упражнение", "Вес", "Повторения"]

  // ---- export -------------------------------------------------------------------

  /** The rows of an exported file: the header, then each entry's four values in order. */
  function ExportRows(data: seq<Record>): (rows: seq<seq<string>>)
    ensures |rows| == |data| + 1 && rows[0] == Header
    ensures forall i :: 0 <= i < |data| ==> rows[i + 1] == Cells(data[i])
  {
    if data == [] then [Header]
    else ExportRows(data[..|data| - 1]) + [Cells(data[|data| - 1])]
  }

  /** The writing loop of lines 347-350. */
  method WriteRows(data: seq<Record>) returns (rows: seq<seq<string>>)
    ensures rows == ExportRows(data)
  {
    rows := [Header];
    var i := 0;
    while i < |data|
      invariant 0 <= i <= |data|
      invariant rows == ExportRows(data[..i])
    {
      assert data[..i + 1][..i] == data[..i];
      rows := rows + [Cells(data[i])];
      i := i + 1;
    }
    assert data[..i] == data;
  }

  // ---- import -------------------------------------------------------------------

  /** Why one data row is refused: the unpacking of line 370 needs exactly four
      cells; the date must be in one of the two forms of lines 371-376. */
  datatype RowFault = WrongCellCount | BadDate

  datatype ImportError =
    | NoHeader                           // `next(reader)` on an empty file
    | BadRow(line: nat, fault: RowFault) // `line` counts the header as line 0

  /** One data row read back as an entry, its date put in the dotted form. */
  function ReadRow(row: seq<string>): (r: Result<Record, RowFault>)
    ensures r == Err(WrongCellCount) <==> |row| != 4
    ensures r == Err(BadDate) <==> |row| == 4 && ParseDotted(row[0]).None? && ParseIso(row[0]).None?
    ensures r.Ok? ==> && r.value.exercise == row[1] && r.value.weight == row[2] && r.value.repetitions == row[3]
                      && ParseDotted(r.value.date) == (if ParseDotted(row[0]).Some? then ParseDotted(row[0]) else ParseIso(row[0]))
  {
    if |row| != 4 then Err(WrongCellCount)
    else match Normalise(row[0])
      case None => Err(BadDate)
      case Some(date) => Ok(Record(date, row[1], row[2], row[3]))
  }

  /** The rows after the header, each read by `read`, in order; the first refused row
      ends the import with its position and fault. */
  function ReadEach<T, F>(body: seq<seq<string>>, read: seq<string> -> Result<T, F>): (r: Result<seq<T>, (nat, F)>)
    ensures r.Ok? <==> forall i :: 0 <= i < |body| ==> read(body[i]).Ok?
    ensures r.Ok? ==> |r.value| == |body| && forall i :: 0 <= i < |body| ==> r.value[i] == read(body[i]).value
    ensures r.Err? ==> && r.error.0 < |body| && read(body[r.error.0]) == Err(r.error.1)
                       && forall i :: 0 <= i < r.error.0 ==> read(body[i]).Ok?
  {
    if body == [] then Ok([])
    else
      var init := body[..|body| - 1];
      assert forall i :: 0 <= i < |init| ==> body[i] == init[i];
      match ReadEach(init, read)
      case Err(e) => Err(e)
      case Ok(data) =>
        match read(body[|body| - 1])
        case Err(f) => Err((|body| - 1, f))
        case Ok(e) => Ok(data + [e])
  }

  /** What an import produces from the rows of a file: the header row is skipped
      whatever it holds. */
  function Imported(rows: seq<seq<string>>): (r: Result<seq<Record>, ImportError>)
    ensures r == Err(NoHeader) <==> rows == []
    ensures r.Ok? ==> |r.value| == |rows| - 1 && forall j :: 1 <= j < |rows| ==> ReadRow(rows[j]) == Ok(r.value[j - 1])
    ensures r.Err? && r.error.BadRow? ==>
              && 1 <= r.error.line < |rows| && ReadRow(rows[r.error.line]) == Err(r.error.fault)
              && forall j :: 1 <= j < r.error.line ==> ReadRow(rows[j]).Ok?
  {
    if rows == [] then Err(NoHeader)
    else
      var body := rows[1..];
      assert forall j :: 1 <= j < |rows| ==> rows[j] == body[j - 1];
      match ReadEach(body, ReadRow)
      case Ok(data) => Ok(data)
      case Err((i, f)) => Err(BadRow(i + 1, f))
  }

  /** The reading loop of lines 366-382. */
  method ReadFile(rows: seq<seq<string>>) returns (r: Result<seq<Record>, ImportError>)
    ensures r == Imported(rows)
  {
    if rows == [] {
      return Err(NoHeader);
    }
    var body := rows[1..];
    var data: seq<Record> := [];
    var i := 0;
    while i < |body|
      invariant 0 <= i <= |body|
      invariant ReadEach(body[..i], ReadRow) == Ok(data)
    {
      var row := ReadOne(body[i]);
      if row.Err? {
        ReadEachFailsAt(body, ReadRow, i);
        return Err(BadRow(i + 1, row.error));
      }
      ReadStep(body, ReadRow, i, data);
      data := data + [row.value];
      i := i + 1;
    }
    assert body[..i] == body;
    r := Ok(data);
  }

  /** One pass of the loop body (lines 369-376): unpack four cells, keep a dotted date,
      rewrite an ISO date, refuse anything else. */
  method ReadOne(row: seq<string>) returns (r: Result<Record, RowFault>)
    ensures r == ReadRow(row)
  {
    if |row| != 4 {
      return Err(WrongCellCount);
    }
    var date := row[0];
    if ParseDotted(date).None? {
      var legacy := ParseIso(date);
      if legacy.None? {
        return Err(BadDate);
      }
      date := FormatDotted(legacy.value);
    }
    r := Ok(Record(date, row[1], row[2], row[3]));
  }

  /** One more accepted row extends what was read so far by that row's entry. */
  lemma ReadStep<T, F>(body: seq<seq<string>>, read: seq<string> -> Result<T, F>, i: nat, data: seq<T>)
    requires i < |body| && ReadEach(body[..i], read) == Ok(data) && read(body[i]).Ok?
    ensures ReadEach(body[..i + 1], read) == Ok(data + [read(body[i]).value])
  {
    assert body[..i + 1][..i] == body[..i];
  }

  /** The first refused row is the failure of the whole body. */
  lemma {:induction false} ReadEachFailsAt<T, F>(body: seq<seq<string>>, read: seq<string> -> Result<T, F>, i: nat)
    requires i < |body| && ReadEach(body[..i], read).Ok? && read(body[i]).Err?
    ensures ReadEach(body, read) == Err((i, read(body[i]).error))
  {
    var init := body[..|body| - 1];
    if i < |init| {
      assert init[..i] == body[..i];
      assert init[i] == body[i];
      ReadEachFailsAt(init, read, i);
    } else {
      assert init == body[..i];
    }
  }

  // ---- properties ---------------------------------------------------------------

  /** Every imported date is in the dotted form, so the filter can read all of them. */
  lemma ImportedIsCanonical(rows: seq<seq<string>>)
    requires Imported(rows).Ok?
    ensures Canonical(Imported(rows).value)
  {
    var data := Imported(rows).value;
    forall i | 0 <= i < |data| ensures ParseDotted(data[i].date).Some? {
      assert data[i] == ReadRow(rows[1..][i]).value;
    }
  }

  /** Exporting entries whose dates are dotted and importing the file gives the same entries. */
  lemma ExportThenImport(data: seq<Record>)
    requires Canonical(data)
    ensures Imported(ExportRows(data)) == Ok(data)
  {
    var rows := ExportRows(data);
    var body := rows[1..];
    forall i | 0 <= i < |body| ensures ReadRow(body[i]) == Ok(data[i]) {
      assert body[i] == Cells(data[i]);
    }
    var r := ReadEach(body, ReadRow);
    assert r.value == data;
  }

  /** Importing a file, exporting the result and importing that again gives the same entries. */
  lemma ImportIsStable(rows: seq<seq<string>>)
    requires Imported(rows).Ok?
    ensures Imported(ExportRows(Imported(rows).value)) == Imported(rows)
  {
    ImportedIsCanonical(rows);
    ExportThenImport(Imported(rows).value);
  }

  /** A file written by an older version, with `YYYY-MM-DD HH:MM:SS` timestamps, imports
      to the same entries with the timestamps written in the dotted form. */
  lemma LegacyRowImport(t: DateTime, exercise: string, weight: string, repetitions: string)
    requires Valid(t)
    ensures ReadRow([FormatIso(t), exercise, weight, repetitions]) == Ok(Record(FormatDotted(t), exercise, weight, repetitions))
  {
    NormaliseIso(t);
  }
}
