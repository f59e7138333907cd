/** Per-exercise grouping shared by the statistics window (`view_exercise_stats`)
    and the progress chart (`view_progress`): both walk the entries in order,
    convert the numeric fields, and file each entry under its exact exercise
    name, creating a key the first time a name is met. */
module Grouping {
  import opened Wrappers
  import opened Records
  import opened Sequences

  /** An entry after conversion: `at` is its date as the caller reads it
      (left as text by the statistics, parsed by the progress chart). */
  datatype Sample<D> = Sample(exercise: string, at: D, weight: real, reps: int)

  /** The date conversion of the statistics window, which never parses the date. */
  function KeepText(s: string): Option<string> {
    Some(s)
  }

  /** Converts every entry in order; `Err(i)` names the first entry whose date,
      `float(weight)` or `int(repetitions)` fails, where the source's loop raises. */
  function Convert<D>(data: seq<Record>, toDate: string -> Option<D>,
                      toWeight: string -> Option<real>, toReps: string -> Option<int>)
    : (r: Result<seq<Sample<D>>, nat>)
    ensures r.Ok? ==> |r.value| == |data|
    ensures r.Ok? <==> forall i :: 0 <= i < |data| ==> Converts(data[i], toDate, toWeight, toReps)
    ensures r.Err? ==> r.error < |data| && !Converts(data[r.error], toDate, toWeight, toReps)
                       && forall i :: 0 <= i < r.error ==> Converts(data[i], toDate, toWeight, toReps)
  {
    if data == [] then Ok([])
    else
      var init := data[..|data| - 1];
      var e := data[|data| - 1];
      assert forall i :: 0 <= i < |init| ==> data[i] == init[i];
      match Convert(init, toDate, toWeight, toReps)
      case Err(i) => Err(i)
      case Ok(s) =>
        if Converts(e, toDate, toWeight, toReps)
        then Ok(s + [Sample(e.exercise, toDate(e.date).value, toWeight(e.weight).value, toReps(e.repetitions).value)])
        else Err(|data| - 1)
  }

  predicate Converts<D>(e: Record, toDate: string -> Option<D>,
                        toWeight: string -> Option<real>, toReps: string -> Option<int>) {
    toDate(e.date).Some? && toWeight(e.weight).Some? && toReps(e.repetitions).Some?
  }

  /** Each converted sample carries its entry's name and converted fields. */
  lemma {:induction false} ConvertAt<D>(data: seq<Record>, toDate: string -> Option<D>,
                                        toWeight: string -> Option<real>, toReps: string -> Option<int>, i: nat)
    requires Convert(data, toDate, toWeight, toReps).Ok? && i < |data|
    ensures Convert(data, toDate, toWeight, toReps).value[i]
            == Sample(data[i].exercise, toDate(data[i].date).value, toWeight(data[i].weight).value,
                      toReps(data[i].repetitions).value)
  {
    var init := data[..|data| - 1];
    if i < |init| {
      ConvertAt(init, toDate, toWeight, toReps, i);
    }
  }

  /** Converting one entry more extends the samples, or fails at that entry. */
  lemma ConvertSnoc<D>(data: seq<Record>, i: nat, toDate: string -> Option<D>,
                       toWeight: string -> Option<real>, toReps: string -> Option<int>)
    requires i < |data| && Convert(data[..i], toDate, toWeight, toReps).Ok?
    ensures var e := data[i];
      Convert(data[..i + 1], toDate, toWeight, toReps)
      == if Converts(e, toDate, toWeight, toReps)
         then Ok(Convert(data[..i], toDate, toWeight, toReps).value
                 + [Sample(e.exercise, toDate(e.date).value, toWeight(e.weight).value, toReps(e.repetitions).value)])
         else Err(i)
  {
    assert data[..i + 1][..i] == data[..i];
  }

  /** The first entry that does not convert is the failure of the whole conversion. */
  lemma {:induction false} ConvertFailsAt<D>(data: seq<Record>, i: nat, toDate: string -> Option<D>,
                                             toWeight: string -> Option<real>, toReps: string -> Option<int>)
    requires i < |data| && Convert(data[..i], toDate, toWeight, toReps).Ok?
    requires !Converts(data[i], toDate, toWeight, toReps)
    ensures Convert(data, toDate, toWeight, toReps) == Err(i)
  {
    var init := data[..|data| - 1];
    if i < |init| {
      assert init[..i] == data[..i];
      assert init[i] == data[i];
      ConvertFailsAt(init, i, toDate, toWeight, toReps);
    } else {
      assert init == data[..i];
    }
  }

  // ---- groups -------------------------------------------------------------

  /** The samples filed under the exact name `k`, in their original order. */
  function Group<D>(s: seq<Sample<D>>, k: string): seq<Sample<D>> {
    if s == [] then []
    else Group(s[..|s| - 1], k) + (if s[|s| - 1].exercise == k then [s[|s| - 1]] else [])
  }

  function GroupIndices<D>(s: seq<Sample<D>>, k: string): seq<nat> {
    if s == [] then []
    else GroupIndices(s[..|s| - 1], k) + (if s[|s| - 1].exercise == k then [|s| - 1] else [])
  }

  /** A group is exactly the samples under that name, as an order-preserving subsequence. */
  lemma {:induction false} GroupExactly<D>(s: seq<Sample<D>>, k: string)
    ensures Embedding(Group(s, k), s, GroupIndices(s, k))
    ensures forall j :: 0 <= j < |s| ==> (s[j].exercise == k <==> j in GroupIndices(s, k))
  {
    if s != [] {
      var init := s[..|s| - 1];
      GroupExactly(init, k);
      forall j | 0 <= j < |init| ensures s[j] == init[j] { }
    }
  }

  lemma GroupSnoc<D>(s: seq<Sample<D>>, x: Sample<D>, k: string)
    ensures Group(s + [x], k) == Group(s, k) + (if x.exercise == k then [x] else [])
  {
    assert (s + [x])[..|s|] == s;
  }

  /** The position of the first sample named `k`, or `|s|` when there is none. */
  function First<D>(s: seq<Sample<D>>, k: string): (p: nat)
    ensures p <= |s|
    ensures p < |s| ==> s[p].exercise == k
    ensures forall i :: 0 <= i < p ==> s[i].exercise != k
  {
    if s == [] then 0
    else
      var init := s[..|s| - 1];
      assert forall i :: 0 <= i < |init| ==> s[i] == init[i];
      if First(init, k) < |init| then First(init, k)
      else if s[|s| - 1].exercise == k then |s| - 1
      else |s|
  }

  /** The names in the order they are first met: the key order of the source's dictionary. */
  function Keys<D>(s: seq<Sample<D>>): (ks: seq<string>)
    ensures forall k :: k in ks <==> exists i :: 0 <= i < |s| && s[i].exercise == k
    ensures forall i, j :: 0 <= i < j < |ks| ==> ks[i] != ks[j]
  {
    if s == [] then []
    else
      var init := s[..|s| - 1];
      var ks := Keys(init);
      var k := s[|s| - 1].exercise;
      assert forall i :: 0 <= i < |init| ==> s[i] == init[i];
      if k in ks then ks else ks + [k]
  }

  /** The names stand in the order of their first appearance. */
  lemma {:induction false} KeysInFirstOrder<D>(s: seq<Sample<D>>)
    ensures forall i, j :: 0 <= i < j < |Keys(s)| ==> First(s, Keys(s)[i]) < First(s, Keys(s)[j])
  {
    if s != [] {
      var init := s[..|s| - 1];
      var ks, k := Keys(init), s[|s| - 1].exercise;
      KeysInFirstOrder(init);
      FirstOfOld(init, ks, s);
      if k !in ks {
        assert First(s, k) == |s| - 1;
        var ks' := ks + [k];
        assert Keys(s) == ks';
        forall i, j | 0 <= i < j < |ks'| ensures First(s, ks'[i]) < First(s, ks'[j]) {
          assert ks'[i] == ks[i] && ks'[i] in ks;
        }
      }
    }
  }

  /** A name already met keeps its first position when a sample is added. */
  lemma FirstOfOld<D>(init: seq<Sample<D>>, ks: seq<string>, s: seq<Sample<D>>)
    requires s != [] && init == s[..|s| - 1]
    requires forall k :: k in ks ==> exists i :: 0 <= i < |init| && init[i].exercise == k
    ensures forall n :: n in ks ==> First(s, n) == First(init, n) < |init|
  {
    forall n | n in ks ensures First(s, n) == First(init, n) < |init| {
      var i :| 0 <= i < |init| && init[i].exercise == n;
      assert First(init, n) <= i;
    }
  }

  lemma KeysSnoc<D>(s: seq<Sample<D>>, x: Sample<D>)
    ensures Keys(s + [x]) == if x.exercise in Keys(s) then Keys(s) else Keys(s) + [x.exercise]
  {
    assert (s + [x])[..|s|] == s;
  }

  /** A name that never occurs has an empty group. */
  lemma {:induction false} GroupOfAbsent<D>(s: seq<Sample<D>>, k: string)
    requires k !in Keys(s)
    ensures Group(s, k) == []
  {
    if s != [] {
      var init := s[..|s| - 1];
      assert forall i :: 0 <= i < |init| ==> s[i] == init[i];
      GroupOfAbsent(init, k);
    }
  }

  /** The group sizes, summed over the names `ks`. */
  function GroupSizes<D>(ks: seq<string>, s: seq<Sample<D>>): nat {
    if ks == [] then 0 else GroupSizes(ks[..|ks| - 1], s) + |Group(s, ks[|ks| - 1])|
  }

  lemma {:induction false} GroupSizesSnoc<D>(ks: seq<string>, s: seq<Sample<D>>, x: Sample<D>)
    requires forall i, j :: 0 <= i < j < |ks| ==> ks[i] != ks[j]
    ensures GroupSizes(ks, s + [x]) == GroupSizes(ks, s) + (if x.exercise in ks then 1 else 0)
  {
    if ks != [] {
      var init := ks[..|ks| - 1];
      GroupSizesSnoc(init, s, x);
      GroupSnoc(s, x, ks[|ks| - 1]);
      assert ks == init + [ks[|ks| - 1]];
      assert x.exercise in ks <==> x.exercise in init || x.exercise == ks[|ks| - 1];
      assert ks[|ks| - 1] !in init;
    }
  }

  lemma GroupSizesAppend<D>(ks: seq<string>, k: string, s: seq<Sample<D>>)
    ensures GroupSizes(ks + [k], s) == GroupSizes(ks, s) + |Group(s, k)|
  {
    assert (ks + [k])[..|ks|] == ks;
  }

  /** Every sample falls in exactly one group: the group sizes add up to the number of samples. */
  lemma {:induction false} GroupsPartition<D>(s: seq<Sample<D>>)
    ensures GroupSizes(Keys(s), s) == |s|
  {
    if s != [] {
      var init := s[..|s| - 1];
      var x := s[|s| - 1];
      assert s == init + [x];
      GroupsPartition(init);
      GroupSizesSnoc(Keys(init), init, x);
      KeysSnoc(init, x);
      if x.exercise !in Keys(init) {
        GroupSizesAppend(Keys(init), x.exercise, s);
        GroupSnoc(init, x, x.exercise);
        GroupOfAbsent(init, x.exercise);
      }
    }
  }
}
