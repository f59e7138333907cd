/** The combined date-range and exercise filter behind "filter and view records"
    (`apply_filters`) and the progress chart (`view_progress`), which run the same
    list comprehension. */
module Query {
  import opened Wrappers
  import opened Dates
  import opened Text
  import opened Records
  import opened Sequences

  datatype FilterError = StartAfterEnd | BadStoredDate

  /** One condition on an entry. The source's comprehension is
      `And(Period(start, end), Exercise(filter))`. */
  datatype Criterion =
    | Period(start: Date, end: Date)
    | Exercise(filter: string)
    | And(left: Criterion, right: Criterion)

  /** The entry's stored date parses and its calendar date lies in `[start, end]`. */
  predicate InPeriod(r: Record, start: Date, end: Date) {
    match ParseDotted(r.date)
    case Some(t) => DateLe(start, DateOf(t)) && DateLe(DateOf(t), end)
    case None => false
  }

  /** An empty filter passes every exercise; otherwise the names agree after `lower()`. */
  predicate MatchesExercise(exercise: string, filter: string) {
    filter == "" || Lower(exercise) == Lower(filter)
  }

  predicate Holds(c: Criterion, r: Record) {
    match c
    case Period(start, end) => InPeriod(r, start, end)
    case Exercise(filter) => MatchesExercise(r.exercise, filter)
    case And(left, right) => Holds(left, r) && Holds(right, r)
  }

  function Criteria(start: Date, end: Date, filter: string): Criterion {
    And(Period(start, end), Exercise(filter))
  }

  /** The entries satisfying `c`, in their original order. */
  function Where(data: seq<Record>, c: Criterion): (r: seq<Record>)
    ensures |r| <= |data|
  {
    if data == [] then []
    else Where(data[..|data| - 1], c) + (if Holds(c, data[|data| - 1]) then [data[|data| - 1]] else [])
  }

  /** The positions in `data` of the entries `Where` keeps. */
  function WhereIndices(data: seq<Record>, c: Criterion): seq<nat> {
    if data == [] then []
    else WhereIndices(data[..|data| - 1], c) + (if Holds(c, data[|data| - 1]) then [|data| - 1] else [])
  }

  /** The filter keeps exactly the entries that satisfy the criterion, as an
      order-preserving subsequence of the input. */
  lemma {:induction false} WhereExactly(data: seq<Record>, c: Criterion)
    ensures Embedding(Where(data, c), data, WhereIndices(data, c))
    ensures forall j :: 0 <= j < |data| ==> (Holds(c, data[j]) <==> j in WhereIndices(data, c))
  {
    if data != [] {
      var init := data[..|data| - 1];
      WhereExactly(init, c);
      forall j | 0 <= j < |init| ensures data[j] == init[j] { }
    }
  }

  lemma {:induction false} WhereKeepsOnlyMatches(data: seq<Record>, c: Criterion)
    ensures forall i :: 0 <= i < |Where(data, c)| ==> Holds(c, Where(data, c)[i])
  {
    if data != [] {
      WhereKeepsOnlyMatches(data[..|data| - 1], c);
    }
  }

  lemma {:induction false} WhereAllMatch(data: seq<Record>, c: Criterion)
    requires forall i :: 0 <= i < |data| ==> Holds(c, data[i])
    ensures Where(data, c) == data
  {
    if data != [] {
      var init, last := data[..|data| - 1], data[|data| - 1];
      PrefixHolds(data, init, c);
      WhereAllMatch(init, c);
      WhereSnocKept(init, last, c);
      LastSplit(data);
    }
  }

  lemma PrefixHolds(data: seq<Record>, init: seq<Record>, c: Criterion)
    requires |init| <= |data| && init == data[..|init|]
    requires forall i :: 0 <= i < |data| ==> Holds(c, data[i])
    ensures forall i :: 0 <= i < |init| ==> Holds(c, init[i])
  {
    forall i | 0 <= i < |init| ensures Holds(c, init[i]) {
      assert init[i] == data[i];
    }
  }

  lemma WhereSnocKept(init: seq<Record>, last: Record, c: Criterion)
    requires Holds(c, last)
    ensures Where(init + [last], c) == Where(init, c) + [last]
  {
    assert (init + [last])[..|init|] == init;
  }

  /** A selection that leaves out some entry is shorter than the journal. */
  lemma {:induction false} WhereDropsMisses(data: seq<Record>, c: Criterion, i: nat)
    requires i < |data| && !Holds(c, data[i])
    ensures |Where(data, c)| < |data|
  {
    var init := data[..|data| - 1];
    assert |Where(init, c)| <= |init|;
    if i < |init| {
      assert init[i] == data[i];
      WhereDropsMisses(init, c, i);
    } else {
      assert Where(data, c) == Where(init, c) + [];
    }
  }

  /** Filtering twice with the same criterion is filtering once. */
  lemma WhereIdempotent(data: seq<Record>, c: Criterion)
    ensures Where(Where(data, c), c) == Where(data, c)
  {
    WhereKeepsOnlyMatches(data, c);
    WhereAllMatch(Where(data, c), c);
  }

  /** Filtering by both conditions is filtering by one and then the other. */
  lemma {:induction false} WhereAnd(data: seq<Record>, c1: Criterion, c2: Criterion)
    ensures Where(data, And(c1, c2)) == Where(Where(data, c1), c2)
  {
    if data != [] {
      var init := data[..|data| - 1];
      var x := data[|data| - 1];
      WhereAnd(init, c1, c2);
      var w := Where(init, c1);
      if Holds(c1, x) {
        assert (w + [x])[..|w + [x]| - 1] == w;
      } else {
        assert w + [] == w;
      }
    }
  }

  /** The date-range and exercise filters commute. */
  lemma WhereCommutes(data: seq<Record>, c1: Criterion, c2: Criterion)
    ensures Where(Where(data, c1), c2) == Where(Where(data, c2), c1)
  {
    WhereAnd(data, c1, c2);
    WhereAnd(data, c2, c1);
    WhereSameHolds(data, And(c1, c2), And(c2, c1));
  }

  lemma {:induction false} WhereSameHolds(data: seq<Record>, c1: Criterion, c2: Criterion)
    requires forall r :: Holds(c1, r) <==> Holds(c2, r)
    ensures Where(data, c1) == Where(data, c2)
  {
    if data != [] {
      WhereSameHolds(data[..|data| - 1], c1, c2);
    }
  }

  /** `apply_filters` / `view_progress`, lines 286-297, with `start` and `end` as the
      calendar dates picked in the two date widgets. A start after the end is refused
      first; then any stored date the parser rejects aborts the comprehension. */
  function ApplyFilters(data: seq<Record>, start: Date, end: Date, filter: string): (r: Result<seq<Record>, FilterError>)
    ensures r == Err(StartAfterEnd) <==> !DateLe(start, end)
    ensures r == Err(BadStoredDate) <==> DateLe(start, end) && !Canonical(data)
    ensures r.Ok? ==> forall x :: x in r.value <==> x in data && InPeriod(x, start, end) && MatchesExercise(x.exercise, filter)
  {
    if !DateLe(start, end) then Err(StartAfterEnd)
    else if !Canonical(data) then Err(BadStoredDate)
    else
      var c := Criteria(start, end, filter);
      WhereMembers(data, c);
      assert forall x :: Holds(c, x) <==> InPeriod(x, start, end) && MatchesExercise(x.exercise, filter);
      Ok(Where(data, c))
  }

  /** An entry value occurs in the result exactly when it occurs in the input and passes. */
  lemma WhereMembers(data: seq<Record>, c: Criterion)
    ensures forall x :: x in Where(data, c) <==> x in data && Holds(c, x)
  {
    WhereExactly(data, c);
    var sel := Where(data, c);
    var idx := WhereIndices(data, c);
    forall x | x in sel ensures x in data && Holds(c, x) {
      var i :| 0 <= i < |sel| && sel[i] == x;
      assert data[idx[i]] == x;
      assert idx[i] in idx;
    }
    forall x | x in data && Holds(c, x) ensures x in sel {
      var j :| 0 <= j < |data| && data[j] == x;
      var i :| 0 <= i < |idx| && idx[i] == j;
      assert sel[i] == x;
    }
  }


  /** "Nothing found in this period" is a successful, empty result: it happens
      exactly when the dates are in order, every stored date parses and no entry
      passes both conditions. */
  lemma ApplyFiltersNothingFound(data: seq<Record>, start: Date, end: Date, filter: string)
    ensures ApplyFilters(data, start, end, filter) == Ok([]) <==>
      DateLe(start, end) && Canonical(data) && forall i :: 0 <= i < |data| ==> !Holds(Criteria(start, end, filter), data[i])
  {
    var c := Criteria(start, end, filter);
    WhereExactly(data, c);
    var idx := WhereIndices(data, c);
    if idx != [] {
      assert Holds(c, data[idx[0]]);
    }
  }

  /** Applying the filter to its own result gives that result again. */
  lemma ApplyFiltersIdempotent(data: seq<Record>, start: Date, end: Date, filter: string)
    requires ApplyFilters(data, start, end, filter).Ok?
    ensures ApplyFilters(ApplyFilters(data, start, end, filter).value, start, end, filter)
            == ApplyFilters(data, start, end, filter)
  {
    var c := Criteria(start, end, filter);
    var sel := Where(data, c);
    WhereKeepsOnlyMatches(data, c);
    assert Canonical(sel) by {
      forall i | 0 <= i < |sel| ensures ParseDotted(sel[i].date).Some? {
        assert Holds(c, sel[i]);
      }
    }
    WhereIdempotent(data, c);
  }

  /** With no exercise chosen the filter is the date-range filter alone. */
  lemma EmptyFilterIsPeriodOnly(data: seq<Record>, start: Date, end: Date)
    ensures Where(data, Criteria(start, end, "")) == Where(data, Period(start, end))
  {
    WhereSameHolds(data, Criteria(start, end, ""), Period(start, end));
  }
}
