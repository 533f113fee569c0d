/** computeStats (src/utils/exportImport.ts): the prompt count, the mean of
    the positive ratings and the most used model.  The ratings map that
    getAllRatingsMap returns is a parameter. */
module Stats {
  import opened JsString
  import opened Js
  import opened PromptRecords
  import opened Sorting

  datatype ExportStats = ExportStats(totalPrompts: nat, averageRating: real, mostUsedModel: Option<string>)

  // ---- Ratings ----

  /** `ratings[id]` when it is a number greater than 0. */
  function PositiveRating(ratings: map<string, Json>, id: string): (r: Option<real>)
    ensures r.Some? <==> id in ratings && ratings[id].JNumber? && ratings[id].n > 0.0
    ensures r.Some? ==> r.value == ratings[id].n
  {
    if id in ratings && ratings[id].JNumber? && ratings[id].n > 0.0 then Some(ratings[id].n) else None
  }

  /** ratedValues after the first loop: the positive ratings of the prompts,
      in prompt order. */
  function RatedValues(prompts: seq<Json>, ratings: map<string, Json>): (vs: seq<real>)
    requires AllShaped(prompts)
    ensures |vs| <= |prompts|
    ensures forall i :: 0 <= i < |vs| ==> vs[i] > 0.0
  {
    if prompts == [] then []
    else
      var init := prompts[..|prompts| - 1];
      var last := prompts[|prompts| - 1];
      assert AllShaped(init) by {
        forall i | 0 <= i < |init| ensures IsPromptShape(init[i]) {
          assert init[i] == prompts[i];
        }
      }
      var r := PositiveRating(ratings, IdOf(last));
      RatedValues(init, ratings) + (if r.Some? then [r.value] else [])
  }

  function Sum(vs: seq<real>): real
  {
    if vs == [] then 0.0 else Sum(vs[..|vs| - 1]) + vs[|vs| - 1]
  }

  /** averageRating before rounding: 0 when nothing is rated. */
  function Average(vs: seq<real>): real
  {
    if |vs| == 0 then 0.0 else Sum(vs) / |vs| as real
  }

  /** Nothing rated exactly when no prompt has a positive rating. */
  lemma {:induction false} NoRatingsIffNoneRated(prompts: seq<Json>, ratings: map<string, Json>)
    requires AllShaped(prompts)
    ensures RatedValues(prompts, ratings) == [] <==>
              forall i :: 0 <= i < |prompts| ==> PositiveRating(ratings, IdOf(prompts[i])).None?
    decreases |prompts|
  {
    if prompts != [] {
      var init := prompts[..|prompts| - 1];
      assert forall i :: 0 <= i < |init| ==> init[i] == prompts[i];
      NoRatingsIffNoneRated(init, ratings);
    }
  }

  /** A prompt without a positive rating changes neither the list of rated
      values nor the average: unrated prompts do not count as zero. */
  lemma UnratedPromptIgnored(prompts: seq<Json>, p: Json, ratings: map<string, Json>)
    requires AllShaped(prompts) && IsPromptShape(p)
    requires PositiveRating(ratings, IdOf(p)).None?
    ensures AllShaped(prompts + [p])
    ensures RatedValues(prompts + [p], ratings) == RatedValues(prompts, ratings)
    ensures Average(RatedValues(prompts + [p], ratings)) == Average(RatedValues(prompts, ratings))
  {
    var ps := prompts + [p];
    assert ps[..|ps| - 1] == prompts;
  }

  /** A rated prompt adds its rating at the end. */
  lemma RatedPromptCounted(prompts: seq<Json>, p: Json, ratings: map<string, Json>)
    requires AllShaped(prompts) && IsPromptShape(p)
    requires PositiveRating(ratings, IdOf(p)).Some?
    ensures AllShaped(prompts + [p])
    ensures RatedValues(prompts + [p], ratings) == RatedValues(prompts, ratings) + [ratings[IdOf(p)].n]
  {
    var ps := prompts + [p];
    assert ps[..|ps| - 1] == prompts;
  }

  lemma {:induction false} SumWithin(vs: seq<real>, lo: real, hi: real)
    requires forall i :: 0 <= i < |vs| ==> lo <= vs[i] <= hi
    ensures |vs| as real * lo <= Sum(vs) <= |vs| as real * hi
    decreases |vs|
  {
    if vs != [] {
      var init := vs[..|vs| - 1];
      assert forall i :: 0 <= i < |init| ==> init[i] == vs[i];
      SumWithin(init, lo, hi);
      assert |vs| as real * lo == |init| as real * lo + lo;
      assert |vs| as real * hi == |init| as real * hi + hi;
    }
  }

  /** The average of ratings that lie in [lo, hi] lies in [lo, hi] (the
      0..5 range of stored ratings is kept by the mean). */
  lemma AverageWithin(vs: seq<real>, lo: real, hi: real)
    requires vs != []
    requires forall i :: 0 <= i < |vs| ==> lo <= vs[i] <= hi
    ensures lo <= Average(vs) <= hi
  {
    SumWithin(vs, lo, hi);
    var n := |vs| as real;
    assert n > 0.0;
    assert Sum(vs) / n >= lo by {
      assert Sum(vs) >= n * lo;
    }
    assert Sum(vs) / n <= hi by {
      assert Sum(vs) <= n * hi;
    }
  }

  // ---- Model tallies ----

  /** `p.metadata?.model?.trim()`: undefined when there is no metadata or no
      model; a model that is not a string has no trim method and throws. */
  function ModelName(p: Json): Outcome<Option<string>>
  {
    match Field(p, "metadata")
    case None => Returned(None)
    case Some(md) =>
      if md.JNull? then Returned(None)
      else match Field(md, "model")
        case None => Returned(None)
        case Some(model) =>
          if model.JNull? then Returned(None)
          else if model.JString? then Returned(Some(Trim(model.s)))
          else Threw(TypeError)
  }

  /** The model a prompt is counted under, if any: `if (!m) continue` skips
      undefined and the empty string. */
  predicate CountedAs(p: Json, m: string)
  {
    m != [] && ModelName(p) == Returned(Some(m))
  }

  /** `counts[m] = (counts[m] ?? 0) + 1` on a dictionary kept in insertion
      order. */
  function Bump(counts: seq<(string, nat)>, m: string): seq<(string, nat)>
  {
    var j := KeyIndex(counts, m);
    if j >= 0 then counts[j := (m, counts[j].1 + 1)] else counts + [(m, 1)]
  }

  /** counts after the second loop, or the TypeError of the first model that
      is not a string. */
  function CountModels(prompts: seq<Json>): Outcome<seq<(string, nat)>>
  {
    if prompts == [] then Returned([])
    else
      match CountModels(prompts[..|prompts| - 1])
      case Threw(f) => Threw(f)
      case Returned(counts) =>
        match ModelName(prompts[|prompts| - 1])
        case Threw(f) => Threw(f)
        case Returned(m) =>
          if m.None? || m.value == [] then Returned(counts) else Returned(Bump(counts, m.value))
  }

  /** How many prompts are counted under `m`. */
  function Tally(prompts: seq<Json>, m: string): nat
  {
    if prompts == [] then 0
    else Tally(prompts[..|prompts| - 1], m) + (if CountedAs(prompts[|prompts| - 1], m) then 1 else 0)
  }

  /** What the tally dictionary holds: each counted model once, with the
      number of prompts counted under it. */
  ghost predicate TalliesOf(counts: seq<(string, nat)>, prompts: seq<Json>)
  {
    && DistinctKeys(counts)
    && (forall m :: KeyIndex(counts, m) >= 0 <==> Tally(prompts, m) > 0)
    && (forall j :: 0 <= j < |counts| ==> counts[j].1 == Tally(prompts, counts[j].0))
  }

  lemma TallySnoc(prompts: seq<Json>, p: Json, m: string)
    ensures Tally(prompts + [p], m) == Tally(prompts, m) + (if CountedAs(p, m) then 1 else 0)
  {
    assert (prompts + [p])[..|prompts|] == prompts;
  }

  lemma TallyStep(prompts: seq<Json>, p: Json, m: string)
    requires CountedAs(p, m)
    ensures forall k :: Tally(prompts + [p], k) == Tally(prompts, k) + (if k == m then 1 else 0)
  {
    forall k ensures Tally(prompts + [p], k) == Tally(prompts, k) + (if k == m then 1 else 0) {
      TallySnoc(prompts, p, k);
    }
  }

  lemma BumpKeySet(counts: seq<(string, nat)>, c2: seq<(string, nat)>, prompts: seq<Json>, ps: seq<Json>, m: string)
    requires forall k :: KeyIndex(counts, k) >= 0 <==> Tally(prompts, k) > 0
    requires forall k :: Tally(ps, k) == Tally(prompts, k) + (if k == m then 1 else 0)
    requires forall k :: KeyIndex(c2, k) >= 0 <==> KeyIndex(counts, k) >= 0 || k == m
    ensures forall k :: KeyIndex(c2, k) >= 0 <==> Tally(ps, k) > 0
  {
  }

  lemma BumpPresentCounts(counts: seq<(string, nat)>, prompts: seq<Json>, ps: seq<Json>, m: string, j: int)
    requires DistinctKeys(counts) && 0 <= j < |counts| && counts[j].0 == m
    requires forall i :: 0 <= i < |counts| ==> counts[i].1 == Tally(prompts, counts[i].0)
    requires forall k :: Tally(ps, k) == Tally(prompts, k) + (if k == m then 1 else 0)
    ensures var c2 := counts[j := (m, counts[j].1 + 1)];
            forall i :: 0 <= i < |c2| ==> c2[i].1 == Tally(ps, c2[i].0)
  {
    var c2 := counts[j := (m, counts[j].1 + 1)];
    forall i | 0 <= i < |c2| ensures c2[i].1 == Tally(ps, c2[i].0) {
      if i != j {
        assert c2[i] == counts[i] && counts[i].0 != m;
      }
    }
  }

  lemma BumpAbsentCounts(counts: seq<(string, nat)>, prompts: seq<Json>, ps: seq<Json>, m: string)
    requires KeyIndex(counts, m) == -1 && Tally(prompts, m) == 0
    requires forall i :: 0 <= i < |counts| ==> counts[i].1 == Tally(prompts, counts[i].0)
    requires forall k :: Tally(ps, k) == Tally(prompts, k) + (if k == m then 1 else 0)
    ensures var c2 := counts + [(m, 1)];
            forall i :: 0 <= i < |c2| ==> c2[i].1 == Tally(ps, c2[i].0)
  {
    var c2 := counts + [(m, 1)];
    forall i | 0 <= i < |c2| ensures c2[i].1 == Tally(ps, c2[i].0) {
      if i < |counts| {
        assert c2[i] == counts[i] && counts[i].0 != m;
      }
    }
  }

  lemma BumpPresent(counts: seq<(string, nat)>, prompts: seq<Json>, p: Json, m: string)
    requires TalliesOf(counts, prompts) && CountedAs(p, m) && KeyIndex(counts, m) >= 0
    ensures TalliesOf(Bump(counts, m), prompts + [p])
  {
    var ps := prompts + [p];
    TallyStep(prompts, p, m);
    var j := KeyIndex(counts, m);
    var c2 := counts[j := (m, counts[j].1 + 1)];
    UpdateKeepsIndices(counts, j, (m, counts[j].1 + 1));
    PresentDistinct(counts, j, (m, counts[j].1 + 1));
    BumpKeySet(counts, c2, prompts, ps, m);
    BumpPresentCounts(counts, prompts, ps, m, j);
    assert Bump(counts, m) == c2;
  }

  lemma BumpAbsent(counts: seq<(string, nat)>, prompts: seq<Json>, p: Json, m: string)
    requires TalliesOf(counts, prompts) && CountedAs(p, m) && KeyIndex(counts, m) == -1
    ensures TalliesOf(Bump(counts, m), prompts + [p])
  {
    var ps := prompts + [p];
    TallyStep(prompts, p, m);
    var c2 := counts + [(m, 1)];
    SnocIndices(counts, (m, 1));
    AbsentDistinct(counts, (m, 1));
    BumpKeySet(counts, c2, prompts, ps, m);
    BumpAbsentCounts(counts, prompts, ps, m);
    assert Bump(counts, m) == c2;
  }

  lemma BumpKeepsTallies(counts: seq<(string, nat)>, prompts: seq<Json>, p: Json, m: string)
    requires TalliesOf(counts, prompts) && CountedAs(p, m)
    ensures TalliesOf(Bump(counts, m), prompts + [p])
  {
    if KeyIndex(counts, m) >= 0 {
      BumpPresent(counts, prompts, p, m);
    } else {
      BumpAbsent(counts, prompts, p, m);
    }
  }

  lemma SkipKeepsTallies(counts: seq<(string, nat)>, prompts: seq<Json>, p: Json)
    requires TalliesOf(counts, prompts) && forall m :: !CountedAs(p, m)
    ensures TalliesOf(counts, prompts + [p])
  {
    forall k ensures Tally(prompts + [p], k) == Tally(prompts, k) {
      TallySnoc(prompts, p, k);
    }
  }

  /** The tally dictionary counts every model name exactly; it fails only if
      some prompt has a model that is not a string. */
  lemma {:induction false} CountModelsTallies(prompts: seq<Json>)
    ensures CountModels(prompts).Threw? <==> exists i :: 0 <= i < |prompts| && ModelName(prompts[i]).Threw?
    ensures CountModels(prompts).Threw? ==> CountModels(prompts).fault == TypeError
    ensures CountModels(prompts).Returned? ==> TalliesOf(CountModels(prompts).value, prompts)
    decreases |prompts|
  {
    if prompts != [] {
      var init := prompts[..|prompts| - 1];
      var p := prompts[|prompts| - 1];
      assert prompts == init + [p];
      assert forall i :: 0 <= i < |init| ==> init[i] == prompts[i];
      CountModelsTallies(init);
      if CountModels(init).Returned? && ModelName(p).Returned? {
        var counts := CountModels(init).value;
        var m := ModelName(p).value;
        if m.None? || m.value == [] {
          SkipKeepsTallies(counts, init, p);
        } else {
          BumpKeepsTallies(counts, init, p, m.value);
        }
      }
    }
  }

  // ---- Object.entries order ----

  /** A property name that is an array index: the canonical decimal of an
      integer below 2^32 - 1. */
  predicate IsArrayIndex(k: string)
  {
    k != [] && AllDigits(k) && (k[0] != '0' || k == "0") && DigitsValue(k) < 0xFFFF_FFFF
  }

  /** The numeric value of an array-index name; -1 for other names. */
  function IndexValue(k: string): int
  {
    if IsArrayIndex(k) then DigitsValue(k) else -1
  }

  /** The entries whose name passes (or fails) the array-index test, in
      insertion order. */
  function FilterIndex(s: seq<(string, nat)>, wanted: bool): (r: seq<(string, nat)>)
    ensures forall i :: 0 <= i < |r| ==> IsArrayIndex(r[i].0) == wanted
  {
    if s == [] then []
    else (if IsArrayIndex(s[0].0) == wanted then [s[0]] else []) + FilterIndex(s[1..], wanted)
  }

  lemma {:induction false} FilterIndexSplits(s: seq<(string, nat)>)
    ensures multiset(FilterIndex(s, true)) + multiset(FilterIndex(s, false)) == multiset(s)
    decreases |s|
  {
    if s != [] {
      FilterIndexSplits(s[1..]);
      PartitionStep(s[0], s[1..], FilterIndex(s[1..], true), FilterIndex(s[1..], false), IsArrayIndex(s[0].0));
      assert s == [s[0]] + s[1..];
    }
  }

  lemma PartitionStep<T>(x: T, rest: seq<T>, yes: seq<T>, no: seq<T>, b: bool)
    requires multiset(yes) + multiset(no) == multiset(rest)
    ensures multiset((if b then [x] else []) + yes) + multiset((if b then [] else [x]) + no) == multiset([x] + rest)
  {
  }

  function EntryIndex(e: (string, nat)): int
  {
    IndexValue(e.0)
  }

  /** Object.entries(counts): the array-index names sorted by value, then
      the other names in insertion order. */
  function ObjectEntries(counts: seq<(string, nat)>): seq<(string, nat)>
  {
    SortBy(FilterIndex(counts, true), EntryIndex) + FilterIndex(counts, false)
  }

  /** Object.entries lists every entry once: array-index names first in
      ascending numeric order, then the other names in insertion order. */
  lemma ObjectEntriesSpec(counts: seq<(string, nat)>)
    ensures var e := ObjectEntries(counts);
            var k := |FilterIndex(counts, true)|;
            && multiset(e) == multiset(counts)
            && k <= |e|
            && (forall i :: 0 <= i < k ==> IsArrayIndex(e[i].0))
            && (forall i, j :: 0 <= i < j < k ==> IndexValue(e[i].0) <= IndexValue(e[j].0))
            && e[k..] == FilterIndex(counts, false)
  {
    FilterIndexSplits(counts);
    var indexed := FilterIndex(counts, true);
    var front := SortBy(indexed, EntryIndex);
    SortBySpec(indexed, EntryIndex);
    SortedIndexNames(indexed, front);
    var e := ObjectEntries(counts);
    assert e == front + FilterIndex(counts, false);
    assert e[..|front|] == front;
    assert e[|front|..] == FilterIndex(counts, false);
  }

  /** A reordering of array-index entries holds only array-index names. */
  lemma SortedIndexNames(indexed: seq<(string, nat)>, front: seq<(string, nat)>)
    requires forall i :: 0 <= i < |indexed| ==> IsArrayIndex(indexed[i].0)
    requires multiset(front) == multiset(indexed)
    ensures |front| == |indexed|
    ensures forall i :: 0 <= i < |front| ==> IsArrayIndex(front[i].0)
  {
    assert |front| == |multiset(front)| == |indexed|;
    forall i | 0 <= i < |front| ensures IsArrayIndex(front[i].0) {
      assert front[i] in multiset(indexed);
    }
  }

  // ---- The most used model ----

  /** After the third loop: the first entry with the largest count, if that
      count is above 0, together with that count. */
  function FirstMax(entries: seq<(string, nat)>): (r: (Option<string>, nat))
  {
    if entries == [] then (None, 0)
    else
      var prev := FirstMax(entries[..|entries| - 1]);
      var last := entries[|entries| - 1];
      if last.1 > prev.1 then (Some(last.0), last.1) else prev
  }

  /** The strict comparison picks the first of the entries with the largest
      count; nothing is picked when every count is 0. */
  lemma {:induction false} FirstMaxIsFirstMaximum(entries: seq<(string, nat)>)
    ensures var (m, max) := FirstMax(entries);
            && (forall i :: 0 <= i < |entries| ==> entries[i].1 <= max)
            && (m.None? <==> max == 0)
            && (m.Some? ==> exists i :: 0 <= i < |entries| && entries[i] == (m.value, max)
                                        && forall j :: 0 <= j < i ==> entries[j].1 < max)
    decreases |entries|
  {
    if entries != [] {
      var init := entries[..|entries| - 1];
      assert forall i :: 0 <= i < |init| ==> init[i] == entries[i];
      FirstMaxIsFirstMaximum(init);
      var (m, max) := FirstMax(init);
      var last := entries[|entries| - 1];
      if last.1 > max {
        assert entries[|entries| - 1] == (last.0, last.1);
      } else if m.Some? {
        var i :| 0 <= i < |init| && init[i] == (m.value, max) && forall j :: 0 <= j < i ==> init[j].1 < max;
        assert entries[i] == (m.value, max);
      }
    }
  }

  /** Every entry of Object.entries(counts) is a counted model with its
      tally. */
  lemma EntriesAreTallies(prompts: seq<Json>, counts: seq<(string, nat)>)
    requires TalliesOf(counts, prompts)
    ensures var e := ObjectEntries(counts);
            forall i :: 0 <= i < |e| ==> e[i].1 == Tally(prompts, e[i].0) > 0
  {
    var e := ObjectEntries(counts);
    ObjectEntriesSpec(counts);
    forall i | 0 <= i < |e| ensures e[i].1 == Tally(prompts, e[i].0) > 0 {
      assert e[i] in multiset(counts);
      var j :| 0 <= j < |counts| && counts[j] == e[i];
      assert KeyIndex(counts, counts[j].0) >= 0;
    }
  }

  /** Every counted model has an entry in Object.entries(counts). */
  lemma TalliesAreEntries(prompts: seq<Json>, counts: seq<(string, nat)>, k: string)
    requires TalliesOf(counts, prompts) && Tally(prompts, k) > 0
    ensures exists i :: 0 <= i < |ObjectEntries(counts)| && ObjectEntries(counts)[i] == (k, Tally(prompts, k))
  {
    var e := ObjectEntries(counts);
    ObjectEntriesSpec(counts);
    var j := KeyIndex(counts, k);
    assert counts[j] == (k, Tally(prompts, k));
    assert counts[j] in multiset(e);
    var i :| 0 <= i < |e| && e[i] == counts[j];
  }

  /** mostUsedModel is null exactly when no prompt is counted under a model;
      otherwise it is a counted model with the largest tally. */
  lemma MostUsedModelSpec(prompts: seq<Json>)
    requires CountModels(prompts).Returned?
    ensures var (m, max) := FirstMax(ObjectEntries(CountModels(prompts).value));
            && (m.None? <==> forall k :: Tally(prompts, k) == 0)
            && (m.Some? ==> Tally(prompts, m.value) == max > 0 && forall k :: Tally(prompts, k) <= max)
  {
    CountModelsTallies(prompts);
    var counts := CountModels(prompts).value;
    var (m, max) := FirstMax(ObjectEntries(counts));
    TalliesBoundedByMax(prompts, counts);
    PickedIsTallied(prompts, counts);
    if m.None? {
      FirstMaxIsFirstMaximum(ObjectEntries(counts));
    }
  }

  /** No model is counted more often than the count FirstMax returns. */
  lemma TalliesBoundedByMax(prompts: seq<Json>, counts: seq<(string, nat)>)
    requires TalliesOf(counts, prompts)
    ensures forall k :: Tally(prompts, k) <= FirstMax(ObjectEntries(counts)).1
  {
    var e := ObjectEntries(counts);
    FirstMaxIsFirstMaximum(e);
    forall k ensures Tally(prompts, k) <= FirstMax(e).1 {
      if Tally(prompts, k) > 0 {
        TalliesAreEntries(prompts, counts, k);
      }
    }
  }

  /** The model FirstMax picks is counted, and its count is its tally. */
  lemma PickedIsTallied(prompts: seq<Json>, counts: seq<(string, nat)>)
    requires TalliesOf(counts, prompts)
    ensures var (m, max) := FirstMax(ObjectEntries(counts));
            m.Some? ==> Tally(prompts, m.value) == max > 0
  {
    var e := ObjectEntries(counts);
    FirstMaxIsFirstMaximum(e);
    EntriesAreTallies(prompts, counts);
    var (m, max) := FirstMax(e);
    if m.Some? {
      var i :| 0 <= i < |e| && e[i] == (m.value, max);
      assert e[i].1 == Tally(prompts, e[i].0) > 0;
    }
  }

  /** computeStats over prompts that passed the shape check. */
  method ComputeStats(prompts: seq<Json>, ratings: map<string, Json>) returns (o: Outcome<ExportStats>)
    requires AllShaped(prompts)
    ensures o.Threw? <==> CountModels(prompts).Threw?
    ensures o.Threw? ==> o.fault == TypeError
    ensures o.Returned? ==>
              && o.value.totalPrompts == |prompts|
              && o.value.averageRating == Average(RatedValues(prompts, ratings))
              && o.value.mostUsedModel == FirstMax(ObjectEntries(CountModels(prompts).value)).0
  {
    var ratedValues := CollectRatings(prompts, ratings);
    var averageRating := if |ratedValues| > 0 then Sum(ratedValues) / |ratedValues| as real else 0.0;
    var counts := TallyModels(prompts);
    if counts.Threw? {
      CountModelsTallies(prompts);
      return Threw(counts.fault);
    }
    var mostUsedModel, max := PickMostUsed(ObjectEntries(counts.value));
    return Returned(ExportStats(|prompts|, averageRating, mostUsedModel));
  }

  /** The first loop of computeStats: the positive ratings, in file order. */
  method CollectRatings(prompts: seq<Json>, ratings: map<string, Json>) returns (ratedValues: seq<real>)
    requires AllShaped(prompts)
    ensures ratedValues == RatedValues(prompts, ratings)
  {
    ratedValues := [];
    var i := 0;
    while i < |prompts|
      invariant 0 <= i <= |prompts|
      invariant AllShaped(prompts[..i])
      invariant ratedValues == RatedValues(prompts[..i], ratings)
    {
      RatedValuesStep(prompts, ratings, i);
      var r := PositiveRating(ratings, IdOf(prompts[i]));
      if r.Some? {
        ratedValues := ratedValues + [r.value];
      }
      i := i + 1;
    }
    assert prompts[..i] == prompts;
  }

  /** The second loop of computeStats: the model tallies, or the TypeError
      of the first model that is not a string. */
  method TallyModels(prompts: seq<Json>) returns (o: Outcome<seq<(string, nat)>>)
    ensures o == CountModels(prompts)
  {
    var counts: seq<(string, nat)> := [];
    var i := 0;
    while i < |prompts|
      invariant 0 <= i <= |prompts|
      invariant CountModels(prompts[..i]) == Returned(counts)
    {
      var m := ModelName(prompts[i]);
      if m.Threw? {
        CountModelsThrowsOn(prompts, i);
        return Threw(m.fault);
      }
      CountModelsStep(prompts, i, counts, m.value);
      if m.value.Some? && m.value.value != [] {
        counts := Bump(counts, m.value.value);
      }
      i := i + 1;
    }
    assert prompts[..i] == prompts;
    return Returned(counts);
  }

  /** The third loop of computeStats: the first entry with the largest
      count above 0, and that count. */
  method PickMostUsed(entries: seq<(string, nat)>) returns (mostUsedModel: Option<string>, max: nat)
    ensures (mostUsedModel, max) == FirstMax(entries)
  {
    mostUsedModel := None;
    max := 0;
    var i := 0;
    while i < |entries|
      invariant 0 <= i <= |entries|
      invariant (mostUsedModel, max) == FirstMax(entries[..i])
    {
      FirstMaxStep(entries, i);
      var (m, c) := entries[i];
      if c > max {
        max := c;
        mostUsedModel := Some(m);
      }
      i := i + 1;
    }
    assert entries[..i] == entries;
  }

  lemma RatedValuesStep(prompts: seq<Json>, ratings: map<string, Json>, i: nat)
    requires i < |prompts| && AllShaped(prompts)
    ensures AllShaped(prompts[..i]) && AllShaped(prompts[..i + 1])
    ensures var r := PositiveRating(ratings, IdOf(prompts[i]));
            RatedValues(prompts[..i + 1], ratings) ==
              RatedValues(prompts[..i], ratings) + (if r.Some? then [r.value] else [])
  {
    assert prompts[..i + 1][..i] == prompts[..i];
    assert forall j :: 0 <= j < i + 1 ==> prompts[..i + 1][j] == prompts[j];
  }

  lemma FirstMaxStep(entries: seq<(string, nat)>, i: nat)
    requires i < |entries|
    ensures var prev := FirstMax(entries[..i]);
            FirstMax(entries[..i + 1]) == if entries[i].1 > prev.1 then (Some(entries[i].0), entries[i].1) else prev
  {
    assert entries[..i + 1][..i] == entries[..i];
  }

  lemma CountModelsStep(prompts: seq<Json>, i: nat, counts: seq<(string, nat)>, m: Option<string>)
    requires i < |prompts|
    requires CountModels(prompts[..i]) == Returned(counts) && ModelName(prompts[i]) == Returned(m)
    ensures CountModels(prompts[..i + 1]) ==
              Returned(if m.None? || m.value == [] then counts else Bump(counts, m.value))
  {
    assert prompts[..i + 1][..i] == prompts[..i];
  }

  /** Once a model name throws, the whole count throws, whatever follows. */
  lemma {:induction false} CountModelsThrowsOn(prompts: seq<Json>, i: nat)
    requires i < |prompts| && CountModels(prompts[..i]).Returned? && ModelName(prompts[i]).Threw?
    ensures CountModels(prompts) == Threw(ModelName(prompts[i]).fault)
    decreases |prompts|
  {
    if |prompts| == i + 1 {
      assert prompts[..|prompts| - 1] == prompts[..i];
    } else {
      var init := prompts[..|prompts| - 1];
      assert init[..i] == prompts[..i] && init[i] == prompts[i];
      CountModelsThrowsOn(init, i);
    }
  }
}
