/** One training entry as the journal stores it: four text fields, keyed
    `date`, `exercise`, `weight` and `repetitions`. */
module Records {
  import opened Dates

  datatype Record = Record(date: string, exercise: string, weight: string, repetitions: string)

  /** The four values of an entry in column order, as a table row or a CSV row holds them. */
  function Cells(r: Record): (row: seq<string>)
    ensures |row| == 4
  {
    [r.date, r.exercise, r.weight, r.repetitions]
  }

  /** The entry rebuilt from a row's four values (`values[0]` ... `values[3]`). */
  function FromCells(row: seq<string>): (r: Record)
    requires |row| == 4
    ensures Cells(r) == row
  {
    Record(row[0], row[1], row[2], row[3])
  }

  /** An entry is determined by its four values. */
  lemma FromCellsOfCells(r: Record)
    ensures FromCells(Cells(r)) == r
  {
  }

  /** Every stored date is in the `DD.MM.YYYY HH:MM:SS` form that the filter parses. */
  predicate Canonical(data: seq<Record>) {
    forall i :: 0 <= i < |data| ==> ParseDotted(data[i].date).Some?
  }
}
