/** The progress chart (`view_progress`, lines 531-612): the filtered entries
    split by exercise name into three parallel lists (dates, weights and
    repetition counts) that the chart plots as two lines per name. */
module Progress {
  import opened Wrappers
  import opened Dates
  import opened Records
  import opened Grouping
  import opened Query
  import opened Sequences

  /** The `{'dates': [], 'weights': [], 'repetitions': []}` value of one name. */
  datatype Series<D> = Series(dates: seq<D>, weights: seq<real>, reps: seq<int>)

  /** The `progress_data` dictionary: its keys in insertion order and the value under each. */
  datatype Chart<D> = Chart(order: seq<string>, series: map<string, Series<D>>)

  /** The reasons the chart window does not open. */
  datatype ProgressError =
    | Filter(reason: FilterError)   // the same refusals as the filter window
    | NothingFound                  // the "nothing found in this period" message
    | BadEntry(index: nat)          // a weight or repetition count that does not convert

  /** The three lists of one group: point `i` of each list comes from sample `i`. */
  function SeriesOf<D>(g: seq<Sample<D>>): (r: Series<D>)
    ensures |r.dates| == |g| && |r.weights| == |g| && |r.reps| == |g|
    ensures forall i :: 0 <= i < |g| ==>
              r.dates[i] == g[i].at && r.weights[i] == g[i].weight && r.reps[i] == g[i].reps
  {
    if g == [] then Series([], [], [])
    else
      var init := SeriesOf(g[..|g| - 1]);
      var x := g[|g| - 1];
      Series(init.dates + [x.at], init.weights + [x.weight], init.reps + [x.reps])
  }

  /** The three appends of lines 586-588. */
  function Append<D>(se: Series<D>, x: Sample<D>): Series<D> {
    Series(se.dates + [x.at], se.weights + [x.weight], se.reps + [x.reps])
  }

  lemma SeriesOfSnoc<D>(g: seq<Sample<D>>, x: Sample<D>)
    ensures SeriesOf(g + [x]) == Append(SeriesOf(g), x)
  {
    assert (g + [x])[..|g|] == g;
  }

  /** What the chart shows for the samples `s`: for each name, in order of first
      appearance, the points of exactly the entries carrying that name. */
  ghost predicate ChartOf<D>(c: Chart<D>, s: seq<Sample<D>>) {
    && c.order == Keys(s)
    && (forall k :: k in c.series <==> k in c.order)
    && (forall k :: k in c.series ==> c.series[k] == SeriesOf(Group(s, k)))
  }

  /** The dictionary after filing one more sample (one pass of lines 578-588). */
  function Plot<D>(c: Chart<D>, x: Sample<D>): Chart<D>
  {
    var k := x.exercise;
    var order := if k in c.series then c.order else c.order + [k];
    var points := if k in c.series then c.series[k] else Series([], [], []);
    Chart(order, c.series[k := Append(points, x)])
  }

  /** Filing a sample touches only its own name: the name is present afterwards, joins the
      order only when it is new, and its three lists each end with the sample's values. */
  lemma PlotFilesOneName<D>(c: Chart<D>, x: Sample<D>)
    ensures var next := Plot(c, x);
      && next.series.Keys == c.series.Keys + {x.exercise}
      && (forall k :: k in c.series && k != x.exercise ==> next.series[k] == c.series[k])
      && next.order == (if x.exercise in c.series then c.order else c.order + [x.exercise])
      && var p := next.series[x.exercise];
         && p.dates != [] && p.dates[|p.dates| - 1] == x.at
         && p.weights != [] && p.weights[|p.weights| - 1] == x.weight
         && p.reps != [] && p.reps[|p.reps| - 1] == x.reps
  {
  }

  lemma PlotKeepsChart<D>(c: Chart<D>, s: seq<Sample<D>>, x: Sample<D>)
    requires ChartOf(c, s)
    ensures ChartOf(Plot(c, x), s + [x])
  {
    var k, c', s' := x.exercise, Plot(c, x), s + [x];
    KeysSnoc(s, x);
    assert c'.order == Keys(s');
    forall j | j in c'.series ensures c'.series[j] == SeriesOf(Group(s', j)) {
      GroupSnoc(s, x, j);
      if j == k {
        var g := Group(s, k);
        var points := if k in c.series then c.series[k] else Series([], [], []);
        if k !in c.series {
          GroupOfAbsent(s, k);
        }
        assert points == SeriesOf(g);
        SeriesOfSnoc(g, x);
        assert Group(s', k) == g + [x];
        assert c'.series[k] == Append(points, x);
      } else {
        assert Group(s, j) + [] == Group(s, j);
        assert c'.series[j] == c.series[j];
      }
    }
  }

  /** One pass of the loop body (lines 583-588): create the name's lists when it is new,
      then append the sample's date, weight and repetition count to them. */
  method PlotOne<D>(order: seq<string>, series: map<string, Series<D>>, x: Sample<D>)
    returns (order': seq<string>, series': map<string, Series<D>>)
    ensures Chart(order', series') == Plot(Chart(order, series), x)
  {
    var exercise := x.exercise;
    var points := Series([], [], []);
    order' := order;
    if exercise in series {
      points := series[exercise];
    } else {
      order' := order + [exercise];
    }
    series' := series[exercise := Append(points, x)];
  }

  /** The dictionary the loop of lines 577-588 builds from the samples, one `Plot` per sample. */
  function PlotAll<D>(s: seq<Sample<D>>): Chart<D> {
    if s == [] then Chart([], map[]) else Plot(PlotAll(s[..|s| - 1]), s[|s| - 1])
  }

  /** Plotting every sample gives exactly the chart of the samples. */
  lemma {:induction false} PlotAllIsChart<D>(s: seq<Sample<D>>)
    ensures ChartOf(PlotAll(s), s)
  {
    if s != [] {
      var init := s[..|s| - 1];
      PlotAllIsChart(init);
      PlotKeepsChart(PlotAll(init), init, s[|s| - 1]);
      LastSplit(s);
    }
  }

  /** One pass of the loop: the next entry converts, and the chart grows by its sample. */
  lemma PlotStep<D>(filtered: seq<Record>, i: nat, toDate: string -> Option<D>,
                 toWeight: string -> Option<real>, toReps: string -> Option<int>,
                 samples: seq<Sample<D>>, x: Sample<D>)
    requires i < |filtered| && Convert(filtered[..i], toDate, toWeight, toReps) == Ok(samples)
    requires Converts(filtered[i], toDate, toWeight, toReps)
    requires x == Sample(filtered[i].exercise, toDate(filtered[i].date).value,
                         toWeight(filtered[i].weight).value, toReps(filtered[i].repetitions).value)
    ensures Convert(filtered[..i + 1], toDate, toWeight, toReps) == Ok(samples + [x])
    ensures PlotAll(samples + [x]) == Plot(PlotAll(samples), x)
  {
    ConvertSnoc(filtered, i, toDate, toWeight, toReps);
    assert (samples + [x])[..|samples|] == samples;
  }

  /** The loop of lines 577-588 over the filtered entries. `toDate` stands for the
      `strptime` of line 579, `toWeight` and `toReps` for `float()` and `int()`.
      `Err(i)` is the exception raised at entry `i`. */
  method ProgressSeries<D>(filtered: seq<Record>, toDate: string -> Option<D>,
                        toWeight: string -> Option<real>, toReps: string -> Option<int>)
    returns (r: Result<Chart<D>, nat>)
    ensures Convert(filtered, toDate, toWeight, toReps).Err? ==>
              r == Err(Convert(filtered, toDate, toWeight, toReps).error)
    ensures Convert(filtered, toDate, toWeight, toReps).Ok? ==>
              r == Ok(PlotAll(Convert(filtered, toDate, toWeight, toReps).value))
              && ChartOf(r.value, Convert(filtered, toDate, toWeight, toReps).value)
  {
    var order: seq<string> := [];
    var series: map<string, Series<D>> := map[];
    ghost var samples: seq<Sample<D>> := [];
    var i := 0;
    while i < |filtered|
      invariant 0 <= i <= |filtered|
      invariant Convert(filtered[..i], toDate, toWeight, toReps) == Ok(samples)
      invariant Chart(order, series) == PlotAll(samples)
    {
      var entry := filtered[i];
      var at := toDate(entry.date);
      var weight := toWeight(entry.weight);
      var repetitions := toReps(entry.repetitions);
      if at.None? || weight.None? || repetitions.None? {
        ConvertFailsAt(filtered, i, toDate, toWeight, toReps);
        return Err(i);
      }
      var x := Sample(entry.exercise, at.value, weight.value, repetitions.value);
      order, series := PlotOne(order, series, x);
      PlotStep(filtered, i, toDate, toWeight, toReps, samples, x);
      samples := samples + [x];
      i := i + 1;
    }
    assert filtered[..i] == filtered;
    PlotAllIsChart(samples);
    r := Ok(Chart(order, series));
  }

  /** `view_progress` after the stored data is loaded: the checks and the filter of
      lines 539-572, then the lists of lines 575-588. */
  method ViewProgress(data: seq<Record>, start: Date, end: Date, filter: string,
                      toWeight: string -> Option<real>, toReps: string -> Option<int>)
    returns (r: Result<Chart<DateTime>, ProgressError>)
    ensures ApplyFilters(data, start, end, filter).Err? ==>
              r == Err(Filter(ApplyFilters(data, start, end, filter).error))
    ensures ApplyFilters(data, start, end, filter) == Ok([]) ==> r == Err(NothingFound)
    ensures ApplyFilters(data, start, end, filter).Ok? && ApplyFilters(data, start, end, filter).value != [] ==>
              var f := ApplyFilters(data, start, end, filter).value;
              && (Convert(f, ParseDotted, toWeight, toReps).Err? ==>
                    r == Err(BadEntry(Convert(f, ParseDotted, toWeight, toReps).error)))
              && (Convert(f, ParseDotted, toWeight, toReps).Ok? ==>
                    r.Ok? && ChartOf(r.value, Convert(f, ParseDotted, toWeight, toReps).value))
  {
    var filtered := ApplyFilters(data, start, end, filter);
    if filtered.Err? {
      return Err(Filter(filtered.error));
    }
    if filtered.value == [] {
      return Err(NothingFound);
    }
    var chart := ProgressSeries(filtered.value, ParseDotted, toWeight, toReps);
    if chart.Err? {
      return Err(BadEntry(chart.error));
    }
    r := Ok(chart.value);
  }

  // ---- properties of the chart ---------------------------------------------------

  function PointCount<D>(ks: seq<string>, series: map<string, Series<D>>): int {
    if ks == [] then 0
    else PointCount(ks[..|ks| - 1], series) + (if ks[|ks| - 1] in series then |series[ks[|ks| - 1]].dates| else 0)
  }

  lemma {:induction false} PointsAreGroupSizes<D>(ks: seq<string>, c: Chart<D>, s: seq<Sample<D>>)
    requires ChartOf(c, s)
    requires forall k :: k in ks ==> k in c.series
    ensures PointCount(ks, c.series) == GroupSizes(ks, s)
  {
    if ks != [] {
      PointsAreGroupSizes(ks[..|ks| - 1], c, s);
    }
  }

  /** Every filtered entry becomes exactly one point: the series lengths add up to
      the number of samples. */
  lemma EveryEntryPlottedOnce<D>(c: Chart<D>, s: seq<Sample<D>>)
    requires ChartOf(c, s)
    ensures PointCount(c.order, c.series) == |s|
  {
    PointsAreGroupSizes(c.order, c, s);
    GroupsPartition(s);
  }

  /** Point `i` of the line for `k` is the date of sample `i` of the group of `k`. */
  lemma ChartPoint<D>(c: Chart<D>, s: seq<Sample<D>>, k: string, i: nat)
    requires ChartOf(c, s) && k in c.series && i < |c.series[k].dates|
    ensures i < |Group(s, k)| && c.series[k].dates[i] == Group(s, k)[i].at
  {
    assert c.series[k] == SeriesOf(Group(s, k));
  }

  /** Point `i` of the line for `k` is the converted date of an entry named `k`. */
  lemma PointComesFromEntry<D>(f: seq<Record>, toDate: string -> Option<D>,
                               toWeight: string -> Option<real>, toReps: string -> Option<int>,
                               c: Chart<D>, k: string, i: nat) returns (j: nat)
    requires Convert(f, toDate, toWeight, toReps).Ok?
    requires ChartOf(c, Convert(f, toDate, toWeight, toReps).value)
    requires k in c.series && i < |c.series[k].dates|
    ensures j < |f| && f[j].exercise == k && toDate(f[j].date) == Some(c.series[k].dates[i])
  {
    var s := Convert(f, toDate, toWeight, toReps).value;
    var g := Group(s, k);
    ChartPoint(c, s, k, i);
    GroupExactly(s, k);
    j := GroupIndices(s, k)[i];
    assert g[i] == s[j];
    ConvertAt(f, toDate, toWeight, toReps, j);
  }

  /** Every point of every line lies in the chosen period, carries the chosen name
      (up to case), and comes from an entry of the stored data with that date. */
  lemma PlottedPointsPassFilter(data: seq<Record>, start: Date, end: Date, filter: string,
                                toWeight: string -> Option<real>, toReps: string -> Option<int>,
                                c: Chart<DateTime>, k: string, i: nat)
    requires ApplyFilters(data, start, end, filter).Ok?
    requires Convert(ApplyFilters(data, start, end, filter).value, ParseDotted, toWeight, toReps).Ok?
    requires ChartOf(c, Convert(ApplyFilters(data, start, end, filter).value, ParseDotted, toWeight, toReps).value)
    requires k in c.series && i < |c.series[k].dates|
    ensures DateLe(start, DateOf(c.series[k].dates[i])) && DateLe(DateOf(c.series[k].dates[i]), end)
    ensures MatchesExercise(k, filter)
    ensures exists e :: e in data && e.exercise == k && ParseDotted(e.date) == Some(c.series[k].dates[i])
  {
    var f := ApplyFilters(data, start, end, filter).value;
    var j := PointComesFromEntry(f, ParseDotted, toWeight, toReps, c, k, i);
    var e := f[j];
    assert e in f;
    assert e in data && InPeriod(e, start, end) && MatchesExercise(e.exercise, filter);
  }
}
