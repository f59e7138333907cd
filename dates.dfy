/** Timestamps of the training journal: the fixed-width text form
    `DD.MM.YYYY HH:MM:SS` in which every entry's date is stored, the legacy
    `YYYY-MM-DD HH:MM:SS` form accepted on CSV import, and the calendar-date
    order used by the date-range filter. */
module Dates {
  import opened Wrappers

  datatype DateTime = DateTime(year: nat, month: nat, day: nat, hour: nat, minute: nat, second: nat)

  /** The calendar date of a timestamp (what `datetime.date()` keeps). */
  datatype Date = Date(year: nat, month: nat, day: nat)

  function DateOf(t: DateTime): Date {
    Date(t.year, t.month, t.day)
  }

  predicate IsLeapYear(y: nat) {
    (y % 4 == 0 && y % 100 != 0) || y % 400 == 0
  }

  function DaysInMonth(y: nat, m: nat): nat
    requires 1 <= m <= 12
  {
    if m == 2 then (if IsLeapYear(y) then 29 else 28)
    else if m == 4 || m == 6 || m == 9 || m == 11 then 30
    else 31
  }

  /** A calendar date `datetime` can represent: years 1..9999, a real day of a real month. */
  predicate ValidDate(d: Date) {
    1 <= d.year <= 9999 && 1 <= d.month <= 12 && 1 <= d.day <= DaysInMonth(d.year, d.month)
  }

  predicate Valid(t: DateTime) {
    ValidDate(DateOf(t)) && t.hour <= 23 && t.minute <= 59 && t.second <= 59
  }

  /** Calendar order on dates: year, then month, then day. */
  predicate DateLe(a: Date, b: Date) {
    a.year < b.year
    || (a.year == b.year && a.month < b.month)
    || (a.year == b.year && a.month == b.month && a.day <= b.day)
  }

  lemma DateLeIsTotalOrder(a: Date, b: Date, c: Date)
    ensures DateLe(a, a)
    ensures DateLe(a, b) && DateLe(b, a) ==> a == b
    ensures DateLe(a, b) && DateLe(b, c) ==> DateLe(a, c)
    ensures DateLe(a, b) || DateLe(b, a)
  {
  }

  // ---- decimal digits ----------------------------------------------------

  predicate IsDigit(c: char) {
    '0' <= c <= '9'
  }

  predicate AllDigits(s: string) {
    forall i :: 0 <= i < |s| ==> IsDigit(s[i])
  }

  function Pow10(w: nat): (p: nat)
    ensures p >= 1
  {
    if w == 0 then 1 else 10 * Pow10(w - 1)
  }

  function DigitChar(n: nat): (c: char)
    requires n < 10
    ensures IsDigit(c)
  {
    ('0' as int + n) as char
  }

  function DigitValue(c: char): (n: nat)
    requires IsDigit(c)
    ensures n < 10
  {
    c as int - '0' as int
  }

  /** `n` written with exactly `w` decimal digits, zero-padded on the left
      (what `%d`, `%m`, `%H`, `%M`, `%S` and `%Y` produce). */
  function Padded(n: nat, w: nat): (s: string)
    ensures |s| == w && AllDigits(s)
  {
    if w == 0 then [] else Padded(n / 10, w - 1) + [DigitChar(n % 10)]
  }

  /** The number a string of decimal digits denotes. */
  function Value(s: string): nat
    requires AllDigits(s)
  {
    if s == [] then 0 else 10 * Value(s[..|s| - 1]) + DigitValue(s[|s| - 1])
  }

  lemma {:induction false} ValuePadded(n: nat, w: nat)
    requires n < Pow10(w)
    ensures Value(Padded(n, w)) == n
  {
    if w > 0 {
      var s := Padded(n, w);
      assert s[..|s| - 1] == Padded(n / 10, w - 1);
      ValuePadded(n / 10, w - 1);
      assert DigitValue(DigitChar(n % 10)) == n % 10;
    }
  }

  lemma {:induction false} PaddedValue(s: string)
    requires AllDigits(s)
    ensures Value(s) < Pow10(|s|)
    ensures Padded(Value(s), |s|) == s
  {
    if s != [] {
      var init := s[..|s| - 1];
      PaddedValue(init);
      var v := Value(s);
      assert v / 10 == Value(init) && v % 10 == DigitValue(s[|s| - 1]);
      assert DigitChar(DigitValue(s[|s| - 1])) == s[|s| - 1];
      assert s == init + [s[|s| - 1]];
    }
  }

  // ---- DD.MM.YYYY HH:MM:SS -------------------------------------------------

  /** `strftime('%d.%m.%Y %H:%M:%S')`. */
  function FormatDotted(t: DateTime): (s: string)
    requires Valid(t)
    ensures |s| == 19
  {
    Padded(t.day, 2) + "." + Padded(t.month, 2) + "." + Padded(t.year, 4) + " "
    + Padded(t.hour, 2) + ":" + Padded(t.minute, 2) + ":" + Padded(t.second, 2)
  }

  /** The fixed-width shape `DD.MM.YYYY HH:MM:SS`: digits and separators in place. */
  predicate DottedShape(s: string) {
    |s| == 19 && s[2] == '.' && s[5] == '.' && s[10] == ' ' && s[13] == ':' && s[16] == ':'
    && AllDigits(s[0..2]) && AllDigits(s[3..5]) && AllDigits(s[6..10])
    && AllDigits(s[11..13]) && AllDigits(s[14..16]) && AllDigits(s[17..19])
  }

  function DottedFields(s: string): DateTime
    requires DottedShape(s)
  {
    DateTime(Value(s[6..10]), Value(s[3..5]), Value(s[0..2]),
             Value(s[11..13]), Value(s[14..16]), Value(s[17..19]))
  }

  /** `strptime(s, '%d.%m.%Y %H:%M:%S')` restricted to zero-padded fields:
      None where the source raises ValueError. */
  function ParseDotted(s: string): (r: Option<DateTime>)
    ensures r.Some? ==> Valid(r.value)
  {
    if DottedShape(s) && Valid(DottedFields(s)) then Some(DottedFields(s)) else None
  }

  lemma ParseFormatDotted(t: DateTime)
    requires Valid(t)
    ensures ParseDotted(FormatDotted(t)) == Some(t)
  {
    var s := FormatDotted(t);
    assert s[0..2] == Padded(t.day, 2);
    assert s[3..5] == Padded(t.month, 2);
    assert s[6..10] == Padded(t.year, 4);
    assert s[11..13] == Padded(t.hour, 2);
    assert s[14..16] == Padded(t.minute, 2);
    assert s[17..19] == Padded(t.second, 2);
    ValuePadded(t.day, 2);
    ValuePadded(t.month, 2);
    ValuePadded(t.year, 4);
    ValuePadded(t.hour, 2);
    ValuePadded(t.minute, 2);
    ValuePadded(t.second, 2);
  }

  /** The dotted form is canonical: a string that parses is the formatting of what it denotes. */
  lemma FormatParseDotted(s: string)
    requires ParseDotted(s).Some?
    ensures FormatDotted(ParseDotted(s).value) == s
  {
    assert DottedShape(s);
    var t := DottedFields(s);
    PaddedValue(s[0..2]);
    PaddedValue(s[3..5]);
    PaddedValue(s[6..10]);
    PaddedValue(s[11..13]);
    PaddedValue(s[14..16]);
    PaddedValue(s[17..19]);
    FormatDottedFields(t, s[0..2], s[3..5], s[6..10], s[11..13], s[14..16], s[17..19]);
    SplitAt19(s);
  }

  lemma FormatDottedFields(t: DateTime, dd: string, mm: string, yyyy: string, hh: string, mi: string, ss: string)
    requires Valid(t)
    requires Padded(t.day, 2) == dd && Padded(t.month, 2) == mm && Padded(t.year, 4) == yyyy
    requires Padded(t.hour, 2) == hh && Padded(t.minute, 2) == mi && Padded(t.second, 2) == ss
    ensures FormatDotted(t) == dd + "." + mm + "." + yyyy + " " + hh + ":" + mi + ":" + ss
  {
  }

  /** A dotted-shaped string is the concatenation of its fields and separators. */
  lemma SplitAt19(s: string)
    requires |s| == 19 && s[2] == '.' && s[5] == '.' && s[10] == ' ' && s[13] == ':' && s[16] == ':'
    ensures s == s[0..2] + "." + s[3..5] + "." + s[6..10] + " " + s[11..13] + ":" + s[14..16] + ":" + s[17..19]
  {
    assert s == s[0..2] + [s[2]] + s[3..5] + [s[5]] + s[6..10] + [s[10]]
                 + s[11..13] + [s[13]] + s[14..16] + [s[16]] + s[17..19];
  }

  // ---- YYYY-MM-DD HH:MM:SS -------------------------------------------------

  /** `strftime('%Y-%m-%d %H:%M:%S')`, the legacy form a CSV file may carry. */
  function FormatIso(t: DateTime): (s: string)
    requires Valid(t)
    ensures |s| == 19
  {
    Padded(t.year, 4) + "-" + Padded(t.month, 2) + "-" + Padded(t.day, 2) + " "
    + Padded(t.hour, 2) + ":" + Padded(t.minute, 2) + ":" + Padded(t.second, 2)
  }

  predicate IsoShape(s: string) {
    |s| == 19 && s[4] == '-' && s[7] == '-' && s[10] == ' ' && s[13] == ':' && s[16] == ':'
    && AllDigits(s[0..4]) && AllDigits(s[5..7]) && AllDigits(s[8..10])
    && AllDigits(s[11..13]) && AllDigits(s[14..16]) && AllDigits(s[17..19])
  }

  function IsoFields(s: string): DateTime
    requires IsoShape(s)
  {
    DateTime(Value(s[0..4]), Value(s[5..7]), Value(s[8..10]),
             Value(s[11..13]), Value(s[14..16]), Value(s[17..19]))
  }

  /** `strptime(s, '%Y-%m-%d %H:%M:%S')` restricted to zero-padded fields. */
  function ParseIso(s: string): (r: Option<DateTime>)
    ensures r.Some? ==> Valid(r.value)
  {
    if IsoShape(s) && Valid(IsoFields(s)) then Some(IsoFields(s)) else None
  }

  lemma ParseFormatIso(t: DateTime)
    requires Valid(t)
    ensures ParseIso(FormatIso(t)) == Some(t)
  {
    var s := FormatIso(t);
    assert s[0..4] == Padded(t.year, 4);
    assert s[5..7] == Padded(t.month, 2);
    assert s[8..10] == Padded(t.day, 2);
    assert s[11..13] == Padded(t.hour, 2);
    assert s[14..16] == Padded(t.minute, 2);
    assert s[17..19] == Padded(t.second, 2);
    ValuePadded(t.day, 2);
    ValuePadded(t.month, 2);
    ValuePadded(t.year, 4);
    ValuePadded(t.hour, 2);
    ValuePadded(t.minute, 2);
    ValuePadded(t.second, 2);
  }

  /** No string is in both forms (position 2 is '.' in one and a digit in the other). */
  lemma FormsAreDisjoint(s: string)
    requires ParseIso(s).Some?
    ensures ParseDotted(s).None?
  {
    assert IsoShape(s) && IsDigit(s[0..4][2]);
  }

  // ---- CSV import normalisation ----------------------------------------------

  /** The import step of lines 371-376: a dotted date is kept as it is, an ISO date
      is rewritten into the dotted form, anything else makes the import fail (None). */
  function Normalise(s: string): (r: Option<string>)
    ensures ParseDotted(s).Some? ==> r == Some(s)
    ensures ParseIso(s).Some? ==> r.Some? && ParseDotted(r.value) == ParseIso(s)
    ensures r.Some? <==> ParseDotted(s).Some? || ParseIso(s).Some?
    ensures r.Some? ==> ParseDotted(r.value).Some?
  {
    if ParseDotted(s).Some? then Some(s)
    else match ParseIso(s)
      case Some(t) => ParseFormatDotted(t); Some(FormatDotted(t))
      case None => None
  }

  /** A legacy timestamp becomes the dotted timestamp with the same six components. */
  lemma NormaliseIso(t: DateTime)
    requires Valid(t)
    ensures Normalise(FormatIso(t)) == Some(FormatDotted(t))
  {
    ParseFormatIso(t);
    FormsAreDisjoint(FormatIso(t));
  }
}
