/** The statistics window (`view_exercise_stats`, lines 473-505): one row per
    exercise name with total volume, total repetitions, number of sets and the
    largest weight and repetition count. */
module Stats {
  import opened Wrappers
  import opened Records
  import opened Grouping
  import opened Sequences

  datatype Stat = Stat(totalWeight: real, totalReps: int, totalSets: nat, maxWeight: real, maxReps: int)

  /** The `stats` dictionary: its keys in insertion order and the value under each. */
  datatype Rollup = Rollup(order: seq<string>, stats: map<string, Stat>)

  // ---- what each value means, over one group -----------------------------------

  /** The volume of one set: weight times repetitions (line 497). */
  function Lifted<D>(x: Sample<D>): real {
    x.weight * (x.reps as real)
  }

  /** Total volume lifted: the sum of weight times repetitions. */
  function Volume<D>(g: seq<Sample<D>>): real {
    if g == [] then 0.0 else Volume(g[..|g| - 1]) + Lifted(g[|g| - 1])
  }

  function RepsTotal<D>(g: seq<Sample<D>>): int {
    if g == [] then 0 else RepsTotal(g[..|g| - 1]) + g[|g| - 1].reps
  }

  /** The largest weight, where the running maximum starts at 0 (lines 493 and 501-502). */
  function MaxWeight<D>(g: seq<Sample<D>>): real {
    if g == [] then 0.0
    else
      var m := MaxWeight(g[..|g| - 1]);
      if g[|g| - 1].weight > m then g[|g| - 1].weight else m
  }

  /** The largest repetition count, where the running maximum starts at 0 (lines 494 and 504-505). */
  function MaxReps<D>(g: seq<Sample<D>>): int {
    if g == [] then 0
    else
      var m := MaxReps(g[..|g| - 1]);
      if g[|g| - 1].reps > m then g[|g| - 1].reps else m
  }

  /** `max_weight` is the maximum of 0 and the weights of the group: at least every weight,
      and either 0 or one of them. */
  lemma {:induction false} MaxWeightIsMaximum<D>(g: seq<Sample<D>>)
    ensures MaxWeight(g) >= 0.0
    ensures forall i :: 0 <= i < |g| ==> g[i].weight <= MaxWeight(g)
    ensures MaxWeight(g) == 0.0 || exists i :: 0 <= i < |g| && g[i].weight == MaxWeight(g)
  {
    if g != [] {
      var init := g[..|g| - 1];
      MaxWeightIsMaximum(init);
      assert forall i :: 0 <= i < |init| ==> g[i] == init[i];
    }
  }

  /** `max_repetitions` is the maximum of 0 and the repetition counts of the group. */
  lemma {:induction false} MaxRepsIsMaximum<D>(g: seq<Sample<D>>)
    ensures MaxReps(g) >= 0
    ensures forall i :: 0 <= i < |g| ==> g[i].reps <= MaxReps(g)
    ensures MaxReps(g) == 0 || exists i :: 0 <= i < |g| && g[i].reps == MaxReps(g)
  {
    if g != [] {
      var init := g[..|g| - 1];
      MaxRepsIsMaximum(init);
      assert forall i :: 0 <= i < |init| ==> g[i] == init[i];
    }
  }

  function StatOf<D>(g: seq<Sample<D>>): Stat {
    Stat(Volume(g), RepsTotal(g), |g|, MaxWeight(g), MaxReps(g))
  }

  /** One pass of the loop body of lines 497-505 on the statistics of a name. */
  function Accumulate<D>(st: Stat, x: Sample<D>): (r: Stat)
    ensures r.totalSets == st.totalSets + 1
    ensures r.totalWeight == st.totalWeight + Lifted(x) && r.totalReps == st.totalReps + x.reps
    ensures r.maxWeight >= st.maxWeight && r.maxWeight >= x.weight
            && (r.maxWeight == st.maxWeight || r.maxWeight == x.weight)
    ensures r.maxReps >= st.maxReps && r.maxReps >= x.reps && (r.maxReps == st.maxReps || r.maxReps == x.reps)
  {
    Stat(st.totalWeight + Lifted(x), st.totalReps + x.reps, st.totalSets + 1,
         if x.weight > st.maxWeight then x.weight else st.maxWeight,
         if x.reps > st.maxReps then x.reps else st.maxReps)
  }

  lemma StatOfSnoc<D>(g: seq<Sample<D>>, x: Sample<D>)
    ensures StatOf(g + [x]) == Accumulate(StatOf(g), x)
  {
    var h := g + [x];
    VolumeSnoc(g, x);
    RepsTotalSnoc(g, x);
    MaxWeightSnoc(g, x);
    MaxRepsSnoc(g, x);
    var st, sh := StatOf(g), StatOf(h);
    var a := Accumulate(st, x);
    assert sh.totalWeight == a.totalWeight && sh.totalReps == a.totalReps && sh.totalSets == a.totalSets;
    assert sh.maxWeight == a.maxWeight && sh.maxReps == a.maxReps;
  }

  lemma VolumeSnoc<D>(g: seq<Sample<D>>, x: Sample<D>)
    ensures Volume(g + [x]) == Volume(g) + Lifted(x)
  {
    assert (g + [x])[..|g|] == g;
  }

  lemma RepsTotalSnoc<D>(g: seq<Sample<D>>, x: Sample<D>)
    ensures RepsTotal(g + [x]) == RepsTotal(g) + x.reps
  {
    assert (g + [x])[..|g|] == g;
  }

  lemma MaxWeightSnoc<D>(g: seq<Sample<D>>, x: Sample<D>)
    ensures MaxWeight(g + [x]) == if x.weight > MaxWeight(g) then x.weight else MaxWeight(g)
  {
    assert (g + [x])[..|g|] == g;
  }

  lemma MaxRepsSnoc<D>(g: seq<Sample<D>>, x: Sample<D>)
    ensures MaxReps(g + [x]) == if x.reps > MaxReps(g) then x.reps else MaxReps(g)
  {
    assert (g + [x])[..|g|] == g;
  }

  /** What the statistics window shows for `data`: for each name, in order of first
      appearance, the statistics of exactly the entries carrying that name. */
  ghost predicate RollupOf<D>(r: Rollup, s: seq<Sample<D>>) {
    && r.order == Keys(s)
    && (forall k :: k in r.stats <==> k in r.order)
    && (forall k :: k in r.stats ==> r.stats[k] == StatOf(Group(s, k)))
  }

  /** The loop of lines 483-505. `toWeight` and `toReps` stand for `float()` and `int()`;
      `Err(i)` is the ValueError the loop raises at entry `i`, after which no window opens. */
  method ExerciseStats(data: seq<Record>, toWeight: string -> Option<real>, toReps: string -> Option<int>)
    returns (r: Result<Rollup, nat>)
    ensures Convert(data, KeepText, toWeight, toReps).Err? ==> r == Err(Convert(data, KeepText, toWeight, toReps).error)
    ensures Convert(data, KeepText, toWeight, toReps).Ok? ==>
              r == Ok(FileAll(Convert(data, KeepText, toWeight, toReps).value))
              && RollupOf(r.value, Convert(data, KeepText, toWeight, toReps).value)
  {
    var order: seq<string> := [];
    var stats: map<string, Stat> := map[];
    ghost var samples: seq<Sample<string>> := [];
    var i := 0;
    while i < |data|
      invariant 0 <= i <= |data|
      invariant Convert(data[..i], KeepText, toWeight, toReps) == Ok(samples)
      invariant Rollup(order, stats) == FileAll(samples)
    {
      var entry := data[i];
      var weight := toWeight(entry.weight);
      var repetitions := toReps(entry.repetitions);
      assert KeepText(entry.date).Some?;
      if weight.None? || repetitions.None? {
        ConvertFailsAt(data, i, KeepText, toWeight, toReps);
        return Err(i);
      }
      assert Converts(entry, KeepText, toWeight, toReps);
      var x := Sample(entry.exercise, entry.date, weight.value, repetitions.value);
      order, stats := FileOne(order, stats, x);
      FileStep(data, i, toWeight, toReps, samples, x);
      samples := samples + [x];
      i := i + 1;
    }
    assert data[..i] == data;
    FileAllIsRollup(samples);
    r := Ok(Rollup(order, stats));
  }

  /** The dictionary after filing one more sample (one pass of lines 484-505). */
  function File<D>(r: Rollup, x: Sample<D>): Rollup
  {
    var order := if x.exercise in r.stats then r.order else r.order + [x.exercise];
    Rollup(order, r.stats[x.exercise := Accumulate(StatBefore(r, x), x)])
  }

  /** The statistics of `x`'s name before filing it, fresh zeros for a new name (lines 489-495). */
  function StatBefore<D>(r: Rollup, x: Sample<D>): Stat {
    if x.exercise in r.stats then r.stats[x.exercise] else Stat(0.0, 0, 0, 0.0, 0)
  }

  /** Filing a sample touches only its own name: the name is present afterwards, joins the
      order only when it is new, and its set count grows by one. */
  lemma FileFilesOneName<D>(r: Rollup, x: Sample<D>)
    ensures var next := File(r, x);
      && next.stats.Keys == r.stats.Keys + {x.exercise}
      && (forall k :: k in r.stats && k != x.exercise ==> next.stats[k] == r.stats[k])
      && next.order == (if x.exercise in r.stats then r.order else r.order + [x.exercise])
      && next.stats[x.exercise].totalSets == (if x.exercise in r.stats then r.stats[x.exercise].totalSets else 0) + 1
  {
  }

  lemma FileKeepsRollup<D>(r: Rollup, s: seq<Sample<D>>, x: Sample<D>)
    requires RollupOf(r, s)
    ensures RollupOf(File(r, x), s + [x])
  {
    var k, r', s' := x.exercise, File(r, x), s + [x];
    KeysSnoc(s, x);
    assert r'.order == Keys(s');
    forall j | j in r'.stats ensures r'.stats[j] == StatOf(Group(s', j)) {
      GroupSnoc(s, x, j);
      if j == k {
        if k !in r.stats {
          GroupOfAbsent(s, k);
        }
        assert StatBefore(r, x) == StatOf(Group(s, k));
        StatOfSnoc(Group(s, k), x);
      } else {
        assert Group(s, j) + [] == Group(s, j);
      }
    }
  }

  /** One pass of the loop body (lines 489-505): create the name's statistics when it is
      new, then add the set to them. */
  method FileOne<D>(order: seq<string>, stats: map<string, Stat>, x: Sample<D>)
    returns (order': seq<string>, stats': map<string, Stat>)
    ensures Rollup(order', stats') == File(Rollup(order, stats), x)
  {
    var exercise := x.exercise;
    var st := Stat(0.0, 0, 0, 0.0, 0);
    order' := order;
    if exercise in stats {
      st := stats[exercise];
    } else {
      order' := order + [exercise];
    }
    stats' := stats[exercise := Accumulate(st, x)];
  }

  /** The dictionary the loop of lines 483-505 builds from the samples, one `File` per sample. */
  function FileAll<D>(s: seq<Sample<D>>): Rollup {
    if s == [] then Rollup([], map[]) else File(FileAll(s[..|s| - 1]), s[|s| - 1])
  }

  /** Filing every sample gives exactly the statistics of the samples. */
  lemma {:induction false} FileAllIsRollup<D>(s: seq<Sample<D>>)
    ensures RollupOf(FileAll(s), s)
  {
    if s != [] {
      var init := s[..|s| - 1];
      FileAllIsRollup(init);
      FileKeepsRollup(FileAll(init), init, s[|s| - 1]);
      LastSplit(s);
    }
  }

  /** One pass of the loop: the next entry converts, and the statistics grow by its sample. */
  lemma FileStep(data: seq<Record>, i: nat, toWeight: string -> Option<real>, toReps: string -> Option<int>,
                 samples: seq<Sample<string>>, x: Sample<string>)
    requires i < |data| && Convert(data[..i], KeepText, toWeight, toReps) == Ok(samples)
    requires Converts(data[i], KeepText, toWeight, toReps)
    requires x == Sample(data[i].exercise, data[i].date, toWeight(data[i].weight).value,
                         toReps(data[i].repetitions).value)
    ensures Convert(data[..i + 1], KeepText, toWeight, toReps) == Ok(samples + [x])
    ensures FileAll(samples + [x]) == File(FileAll(samples), x)
  {
    ConvertSnoc(data, i, KeepText, toWeight, toReps);
    assert (samples + [x])[..|samples|] == samples;
  }

  /** Every set is counted under exactly one name: the set counts add up to the number of entries. */
  lemma SetsAddUp<D>(r: Rollup, s: seq<Sample<D>>)
    requires RollupOf(r, s)
    ensures TotalSets(r.order, r.stats) == |s|
  {
    SetsAreGroupSizes(r.order, r, s);
    GroupsPartition(s);
  }

  function TotalSets(ks: seq<string>, stats: map<string, Stat>): int {
    if ks == [] then 0
    else TotalSets(ks[..|ks| - 1], stats) + (if ks[|ks| - 1] in stats then stats[ks[|ks| - 1]].totalSets else 0)
  }

  lemma {:induction false} SetsAreGroupSizes<D>(ks: seq<string>, r: Rollup, s: seq<Sample<D>>)
    requires RollupOf(r, s)
    requires forall k :: k in ks ==> k in r.stats
    ensures TotalSets(ks, r.stats) == GroupSizes(ks, s)
  {
    if ks != [] {
      SetsAreGroupSizes(ks[..|ks| - 1], r, s);
    }
  }

  /** The scenario of two Squat sets, 100 x 5 and 110 x 3. */
  lemma SquatScenario()
    ensures var s := [Sample("Squat", "", 100.0, 5), Sample("Squat", "", 110.0, 3)];
      StatOf(Group(s, "Squat")) == Stat(830.0, 8, 2, 110.0, 5)
  {
    var a := Sample("Squat", "", 100.0, 5);
    var b := Sample("Squat", "", 110.0, 3);
    var s := [a, b];
    assert s == [a] + [b] && [a] == [] + [a];
    GroupSnoc([], a, "Squat");
    GroupSnoc([a], b, "Squat");
    StatOfSnoc([], a);
    var sa := StatOf([a]);
    assert sa == Accumulate(Stat(0.0, 0, 0, 0.0, 0), a);
    assert sa == Stat(500.0, 5, 1, 100.0, 5);
    StatOfSnoc([a], b);
    assert StatOf(s) == Accumulate(sa, b);
  }
}
