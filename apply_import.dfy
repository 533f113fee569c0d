/** applyImport (src/utils/exportImport.ts): the read-modify-write that
    merges an analysed file into the prompts table under one of four modes,
    with a backup taken first and restored when a step after it fails. */
module ApplyImport {
  import opened Js
  import opened Browser
  import opened PromptRecords
  import opened ExportImport
  import Storage

  datatype ImportMode = Replace | MergeSkip | MergeOverwrite | MergeDuplicate

  datatype ImportResult = ImportResult(
    applied: bool, mode: ImportMode,
    imported: nat, skipped: nat, overwritten: nat, duplicated: nat,
    errors: seq<Fault>)

  /** The state of the merge loop: the keys of `map` (its values are never
      read), the array `next` and the four counters. */
  datatype Merge = Merge(seen: set<Key>, next: seq<Json>, imported: nat, skipped: nat, overwritten: nat, duplicated: nat)

  /** The keys `new Map(records.map(p => [p.id, p]))` holds. */
  function KeySet(records: seq<Json>): (ks: set<Key>)
    ensures forall k :: k in ks <==> exists i :: 0 <= i < |records| && KeyAt(records[i], i) == k
  {
    set i | 0 <= i < |records| :: KeyAt(records[i], i)
  }

  /** KeySet is what the Map built from the records holds as keys. */
  lemma MapKeysAreKeySet(records: seq<Json>)
    ensures forall k :: k in KeySet(records) <==> KeyIndex(MapFromPairs(Entries(records)), k) >= 0
  {
    var ps := Entries(records);
    MapFromPairsIsMap(ps);
    forall k ensures k in KeySet(records) <==> KeyIndex(ps, k) >= 0 {
      if k in KeySet(records) {
        var i :| 0 <= i < |records| && KeyAt(records[i], i) == k;
        assert ps[i].0 == k;
      }
    }
  }

  /** The id merge-duplicate gives a copy: the incoming id, a dash and the
      clock-and-random part, which the environment supplies per position. */
  function DuplicateId(id: string, suffix: string): string
  {
    id + "-" + suffix
  }

  /** One turn of the loop over the incoming records, at file position `pos`. */
  function MergeStep(mode: ImportMode, st: Merge, incoming: Json, pos: nat, suffix: nat -> string): Merge
    requires IsPromptShape(incoming)
  {
    var k := Scalar(JString(IdOf(incoming)));
    if k !in st.seen then
      st.(seen := st.seen + {k}, next := st.next + [incoming], imported := st.imported + 1)
    else
      match mode
      case Replace => st
      case MergeSkip => st.(skipped := st.skipped + 1)
      case MergeOverwrite =>
        var idx := FindId(st.next, IdOf(incoming));
        if idx >= 0 then st.(next := st.next[idx := incoming], overwritten := st.overwritten + 1) else st
      case MergeDuplicate =>
        var newId := DuplicateId(IdOf(incoming), suffix(pos));
        st.(seen := st.seen + {Scalar(JString(newId))},
            next := st.next + [WithId(incoming, newId)],
            duplicated := st.duplicated + 1)
  }

  /** The loop's state after the given incoming records, starting from the
      stored records. */
  function Merged(mode: ImportMode, existing: seq<Json>, incoming: seq<Json>, suffix: nat -> string): Merge
    requires AllShaped(incoming)
  {
    if incoming == [] then Merge(KeySet(existing), existing, 0, 0, 0, 0)
    else
      var n := |incoming| - 1;
      PrefixShaped(incoming, n);
      MergeStep(mode, Merged(mode, existing, incoming[..n], suffix), incoming[n], n, suffix)
  }

  /** What the import writes to the table: the file verbatim under replace,
      otherwise `next` de-duplicated by id. */
  function FinalPrompts(mode: ImportMode, existing: seq<Json>, incoming: seq<Json>, suffix: nat -> string): seq<Json>
    requires AllShaped(incoming)
  {
    if mode == Replace then incoming else DedupById(Merged(mode, existing, incoming, suffix).next)
  }

  lemma MergedStep(mode: ImportMode, existing: seq<Json>, incoming: seq<Json>, i: nat, suffix: nat -> string)
    requires AllShaped(incoming) && i < |incoming|
    ensures AllShaped(incoming[..i]) && AllShaped(incoming[..i + 1])
    ensures Merged(mode, existing, incoming[..i + 1], suffix) ==
              MergeStep(mode, Merged(mode, existing, incoming[..i], suffix), incoming[i], i, suffix)
  {
    PrefixShaped(incoming, i);
    PrefixShaped(incoming, i + 1);
    assert incoming[..i + 1][..i] == incoming[..i];
  }

  // ---- Keys of the loop state ----

  lemma KeySetSnoc(records: seq<Json>, x: Json)
    ensures KeySet(records + [x]) == KeySet(records) + {KeyAt(x, |records|)}
  {
    var rs := records + [x];
    forall k ensures k in KeySet(rs) <==> k in KeySet(records) + {KeyAt(x, |records|)} {
      if k in KeySet(rs) {
        var i :| 0 <= i < |rs| && KeyAt(rs[i], i) == k;
        if i < |records| {
          assert rs[i] == records[i];
        }
      }
      if k in KeySet(records) {
        var i :| 0 <= i < |records| && KeyAt(records[i], i) == k;
        assert rs[i] == records[i];
      }
      if k == KeyAt(x, |records|) {
        assert rs[|records|] == x;
      }
    }
  }

  lemma KeySetUpdate(records: seq<Json>, idx: nat, x: Json)
    requires idx < |records| && KeyAt(x, idx) == KeyAt(records[idx], idx)
    ensures KeySet(records[idx := x]) == KeySet(records)
  {
    var rs := records[idx := x];
    forall k ensures k in KeySet(rs) <==> k in KeySet(records) {
      if k in KeySet(rs) {
        var i :| 0 <= i < |rs| && KeyAt(rs[i], i) == k;
        assert KeyAt(records[i], i) == k;
      }
      if k in KeySet(records) {
        var i :| 0 <= i < |records| && KeyAt(records[i], i) == k;
        assert KeyAt(rs[i], i) == k;
      }
    }
  }

  /** A string id the Map holds belongs to some record of `next`, so
      findIndex finds it. */
  lemma HeldIdIsFound(records: seq<Json>, id: string)
    requires Scalar(JString(id)) in KeySet(records)
    ensures FindId(records, id) >= 0
  {
    var i :| 0 <= i < |records| && KeyAt(records[i], i) == Scalar(JString(id));
    KeyIsId(records[i], i, id);
  }

  /** One turn keeps `map`'s keys equal to the keys of `next` and raises
      exactly one counter outside replace. */
  lemma StepKeepsKeys(mode: ImportMode, st: Merge, p: Json, pos: nat, suffix: nat -> string)
    requires IsPromptShape(p) && st.seen == KeySet(st.next)
    ensures var st' := MergeStep(mode, st, p, pos, suffix);
            && st'.seen == KeySet(st'.next)
            && (mode != Replace ==>
                  st'.imported + st'.skipped + st'.overwritten + st'.duplicated
                    == st.imported + st.skipped + st.overwritten + st.duplicated + 1)
            && (mode == Replace ==>
                  st'.skipped == st.skipped && st'.overwritten == st.overwritten && st'.duplicated == st.duplicated)
  {
    var k := Scalar(JString(IdOf(p)));
    if k !in st.seen {
      KeySetSnoc(st.next, p);
    } else if mode == MergeOverwrite {
      HeldIdIsFound(st.next, IdOf(p));
      var idx := FindId(st.next, IdOf(p));
      KeyIsId(st.next[idx], idx, IdOf(p));
      KeySetUpdate(st.next, idx, p);
    } else if mode == MergeDuplicate {
      var newId := DuplicateId(IdOf(p), suffix(pos));
      KeySetSnoc(st.next, WithId(p, newId));
    }
  }

  /** The loop keeps `map`'s keys equal to those of `next`; outside replace
      every incoming record is counted exactly once, and replace counts only
      the new ids. */
  lemma {:induction false} MergedCounts(mode: ImportMode, existing: seq<Json>, incoming: seq<Json>, suffix: nat -> string)
    requires AllShaped(incoming)
    ensures var st := Merged(mode, existing, incoming, suffix);
            && st.seen == KeySet(st.next)
            && (mode != Replace ==> st.imported + st.skipped + st.overwritten + st.duplicated == |incoming|)
            && (mode == Replace ==> st.skipped == 0 && st.overwritten == 0 && st.duplicated == 0)
    decreases |incoming|
  {
    if incoming != [] {
      var n := |incoming| - 1;
      PrefixShaped(incoming, n);
      MergedCounts(mode, existing, incoming[..n], suffix);
      var prev := Merged(mode, existing, incoming[..n], suffix);
      assert Merged(mode, existing, incoming, suffix) == MergeStep(mode, prev, incoming[n], n, suffix);
      StepKeepsKeys(mode, prev, incoming[n], n, suffix);
    }
  }

  // ---- What happens to the stored records ----

  /** merge-skip and merge-duplicate only append: the stored records stay
      in front, untouched. */
  lemma {:induction false} AppendModesKeepExisting(mode: ImportMode, existing: seq<Json>, incoming: seq<Json>, suffix: nat -> string)
    requires AllShaped(incoming) && mode != MergeOverwrite
    ensures var next := Merged(mode, existing, incoming, suffix).next;
            |existing| <= |next| && next[..|existing|] == existing
    decreases |incoming|
  {
    if incoming != [] {
      var n := |incoming| - 1;
      PrefixShaped(incoming, n);
      AppendModesKeepExisting(mode, existing, incoming[..n], suffix);
    }
  }

  /** merge-overwrite never moves a record: every stored position still
      holds the stored record or an incoming record with the same id, and
      the array grows only by the new ids. */
  lemma {:induction false} OverwriteKeepsPositions(existing: seq<Json>, incoming: seq<Json>, suffix: nat -> string)
    requires AllShaped(incoming)
    ensures var st := Merged(MergeOverwrite, existing, incoming, suffix);
            && |st.next| == |existing| + st.imported
            && (forall i :: 0 <= i < |existing| ==>
                  st.next[i] == existing[i]
                  || (st.next[i] in incoming && Field(st.next[i], "id") == Field(existing[i], "id")))
    decreases |incoming|
  {
    if incoming != [] {
      var n := |incoming| - 1;
      PrefixShaped(incoming, n);
      OverwriteKeepsPositions(existing, incoming[..n], suffix);
      var st := Merged(MergeOverwrite, existing, incoming[..n], suffix);
      var p := incoming[n];
      var k := Scalar(JString(IdOf(p)));
      assert forall x :: x in incoming[..n] ==> x in incoming;
      if k in st.seen {
        var idx := FindId(st.next, IdOf(p));
        if idx >= 0 {
          assert Field(st.next[idx], "id") == Field(p, "id");
        }
      }
    }
  }

  /** merge-overwrite puts an incoming record with a known id where the
      first record with that id is. */
  lemma OverwriteTakesFirstPosition(st: Merge, p: Json, pos: nat, suffix: nat -> string)
    requires IsPromptShape(p) && Scalar(JString(IdOf(p))) in st.seen && st.seen == KeySet(st.next)
    ensures var idx := FindId(st.next, IdOf(p));
            && 0 <= idx
            && (forall i :: 0 <= i < idx ==> !IdIs(st.next[i], IdOf(p)))
            && MergeStep(MergeOverwrite, st, p, pos, suffix).next == st.next[idx := p]
  {
    HeldIdIsFound(st.next, IdOf(p));
  }

  lemma EntriesSnocDistinct(records: seq<Json>, x: Json)
    requires DistinctKeys(Entries(records)) && KeyAt(x, |records|) !in KeySet(records)
    ensures DistinctKeys(Entries(records + [x]))
  {
    var rs := records + [x];
    var es := Entries(rs);
    forall i, j | 0 <= i < j < |es| ensures es[i].0 != es[j].0 {
      assert rs[i] == if i < |records| then records[i] else x;
      if j < |records| {
        assert Entries(records)[i].0 == es[i].0 && Entries(records)[j].0 == es[j].0;
      } else {
        assert KeyAt(records[i], i) in KeySet(records);
      }
    }
  }

  lemma EntriesUpdateDistinct(records: seq<Json>, idx: nat, x: Json)
    requires DistinctKeys(Entries(records)) && idx < |records| && KeyAt(x, idx) == KeyAt(records[idx], idx)
    ensures DistinctKeys(Entries(records[idx := x]))
  {
    var rs := records[idx := x];
    forall i, j | 0 <= i < j < |rs| ensures KeyAt(rs[i], i) != KeyAt(rs[j], j) {
      assert KeyAt(rs[i], i) == KeyAt(records[i], i) && KeyAt(rs[j], j) == KeyAt(records[j], j);
      assert Entries(records)[i].0 != Entries(records)[j].0;
    }
  }

  /** Outside merge-duplicate, the loop adds no second record with a known
      id: a table without duplicate ids stays without them. */
  lemma {:induction false} MergedKeepsDistinct(mode: ImportMode, existing: seq<Json>, incoming: seq<Json>, suffix: nat -> string)
    requires AllShaped(incoming) && mode != MergeDuplicate && DistinctKeys(Entries(existing))
    ensures DistinctKeys(Entries(Merged(mode, existing, incoming, suffix).next))
    decreases |incoming|
  {
    if incoming != [] {
      var n := |incoming| - 1;
      PrefixShaped(incoming, n);
      MergedKeepsDistinct(mode, existing, incoming[..n], suffix);
      MergedCounts(mode, existing, incoming[..n], suffix);
      var prev := Merged(mode, existing, incoming[..n], suffix);
      assert Merged(mode, existing, incoming, suffix) == MergeStep(mode, prev, incoming[n], n, suffix);
      StepKeepsDistinct(mode, prev, incoming[n], n, suffix);
    }
  }

  lemma StepKeepsDistinct(mode: ImportMode, st: Merge, p: Json, pos: nat, suffix: nat -> string)
    requires IsPromptShape(p) && mode != MergeDuplicate
    requires st.seen == KeySet(st.next) && DistinctKeys(Entries(st.next))
    ensures DistinctKeys(Entries(MergeStep(mode, st, p, pos, suffix).next))
  {
    var k := Scalar(JString(IdOf(p)));
    if k !in st.seen {
      EntriesSnocDistinct(st.next, p);
    } else if mode == MergeOverwrite {
      var idx := FindId(st.next, IdOf(p));
      if idx >= 0 {
        KeyIsId(st.next[idx], idx, IdOf(p));
        EntriesUpdateDistinct(st.next, idx, p);
      }
    }
  }

  /** On a table without duplicate ids, merge-skip and merge-overwrite write
      `next` as it is: the final de-duplication drops nothing. */
  lemma DedupKeepsMergedNext(mode: ImportMode, existing: seq<Json>, incoming: seq<Json>, suffix: nat -> string)
    requires AllShaped(incoming) && (mode == MergeSkip || mode == MergeOverwrite)
    requires DistinctKeys(Entries(existing))
    ensures FinalPrompts(mode, existing, incoming, suffix) == Merged(mode, existing, incoming, suffix).next
  {
    var next := Merged(mode, existing, incoming, suffix).next;
    MergedKeepsDistinct(mode, existing, incoming, suffix);
    MapFromDistinctPairs(Entries(next));
    ValuesOfEntries(next);
  }

  /** merge-skip on a table without duplicate ids leaves the stored records
      in front of what it writes, untouched. */
  lemma MergeSkipKeepsStore(existing: seq<Json>, incoming: seq<Json>, suffix: nat -> string)
    requires AllShaped(incoming) && DistinctKeys(Entries(existing))
    ensures var final := FinalPrompts(MergeSkip, existing, incoming, suffix);
            |existing| <= |final| && final[..|existing|] == existing
  {
    DedupKeepsMergedNext(MergeSkip, existing, incoming, suffix);
    AppendModesKeepExisting(MergeSkip, existing, incoming, suffix);
  }

  // ---- merge-duplicate ----

  /** At position `i` the id merge-duplicate would make is not yet a key of
      the loop's map whenever that position takes the duplicate branch. */
  ghost predicate FreshAt(existing: seq<Json>, incoming: seq<Json>, i: nat, suffix: nat -> string)
    requires AllShaped(incoming) && i < |incoming|
  {
    PrefixShaped(incoming, i);
    var seen := Merged(MergeDuplicate, existing, incoming[..i], suffix).seen;
    Scalar(JString(IdOf(incoming[i]))) in seen ==>
      Scalar(JString(DuplicateId(IdOf(incoming[i]), suffix(i)))) !in seen
  }

  /** The clock-and-random suffixes never produce an id already held. */
  ghost predicate FreshSuffixes(existing: seq<Json>, incoming: seq<Json>, suffix: nat -> string)
    requires AllShaped(incoming)
  {
    forall i :: 0 <= i < |incoming| ==> FreshAt(existing, incoming, i, suffix)
  }

  lemma FreshPrefix(existing: seq<Json>, incoming: seq<Json>, n: nat, suffix: nat -> string)
    requires AllShaped(incoming) && n <= |incoming| && FreshSuffixes(existing, incoming, suffix)
    ensures AllShaped(incoming[..n]) && FreshSuffixes(existing, incoming[..n], suffix)
  {
    PrefixShaped(incoming, n);
    forall i | 0 <= i < n ensures FreshAt(existing, incoming[..n], i, suffix) {
      assert incoming[..n][..i] == incoming[..i] && incoming[..n][i] == incoming[i];
      assert FreshAt(existing, incoming, i, suffix);
    }
  }

  /** The record merge-duplicate appends for `incoming[i]`: the record itself
      when its id is not yet a key of the Map, otherwise its copy under the
      generated id. */
  ghost function Appended(existing: seq<Json>, incoming: seq<Json>, i: nat, suffix: nat -> string): Json
    requires AllShaped(incoming) && i < |incoming|
  {
    PrefixShaped(incoming, i);
    if Scalar(JString(IdOf(incoming[i]))) in Merged(MergeDuplicate, existing, incoming[..i], suffix).seen
    then WithId(incoming[i], DuplicateId(IdOf(incoming[i]), suffix(i)))
    else incoming[i]
  }

  /** merge-duplicate appends every incoming record: as it is when its id is
      new, otherwise as a copy under the generated id. */
  lemma {:induction false} DuplicateAppendsAll(existing: seq<Json>, incoming: seq<Json>, suffix: nat -> string)
    requires AllShaped(incoming)
    ensures var next := Merged(MergeDuplicate, existing, incoming, suffix).next;
            && |next| == |existing| + |incoming|
            && forall i :: 0 <= i < |incoming| ==> next[|existing| + i] == Appended(existing, incoming, i, suffix)
    decreases |incoming|
  {
    if incoming != [] {
      var n := |incoming| - 1;
      PrefixShaped(incoming, n);
      DuplicateAppendsAll(existing, incoming[..n], suffix);
      var prev := Merged(MergeDuplicate, existing, incoming[..n], suffix).next;
      var next := Merged(MergeDuplicate, existing, incoming, suffix).next;
      var st := Merged(MergeDuplicate, existing, incoming[..n], suffix);
      assert Merged(MergeDuplicate, existing, incoming, suffix) == MergeStep(MergeDuplicate, st, incoming[n], n, suffix);
      DupStepAppends(st, incoming[n], n, suffix);
      assert |prev| == |existing| + n;
      forall i | 0 <= i < n
        ensures next[|existing| + i] == Appended(existing, incoming, i, suffix)
      {
        assert next[|existing| + i] == prev[|existing| + i];
        assert incoming[..n][i] == incoming[i];
        assert incoming[..n][..i] == incoming[..i];
        assert Appended(existing, incoming[..n], i, suffix) == Appended(existing, incoming, i, suffix);
      }
      assert incoming[..n] == incoming[..|incoming| - 1];
      assert next[|existing| + n] == Appended(existing, incoming, n, suffix);
    }
  }

  lemma DupStepAppends(st: Merge, p: Json, pos: nat, suffix: nat -> string)
    requires IsPromptShape(p)
    ensures var next := MergeStep(MergeDuplicate, st, p, pos, suffix).next;
            && |next| == |st.next| + 1
            && (forall i :: 0 <= i < |st.next| ==> next[i] == st.next[i])
            && next[|st.next|] == if Scalar(JString(IdOf(p))) in st.seen
                                  then WithId(p, DuplicateId(IdOf(p), suffix(pos))) else p
  {
  }

  /** With fresh suffixes, merge-duplicate adds no second record with a
      known id. */
  lemma {:induction false} DupKeepsDistinct(existing: seq<Json>, incoming: seq<Json>, suffix: nat -> string)
    requires AllShaped(incoming) && DistinctKeys(Entries(existing)) && FreshSuffixes(existing, incoming, suffix)
    ensures DistinctKeys(Entries(Merged(MergeDuplicate, existing, incoming, suffix).next))
    decreases |incoming|
  {
    if incoming != [] {
      var n := |incoming| - 1;
      FreshPrefix(existing, incoming, n, suffix);
      DupKeepsDistinct(existing, incoming[..n], suffix);
      MergedCounts(MergeDuplicate, existing, incoming[..n], suffix);
      var prev := Merged(MergeDuplicate, existing, incoming[..n], suffix);
      assert Merged(MergeDuplicate, existing, incoming, suffix) == MergeStep(MergeDuplicate, prev, incoming[n], n, suffix);
      assert FreshAt(existing, incoming, n, suffix);
      DupStepKeepsDistinct(prev, incoming[n], n, suffix);
    }
  }

  lemma DupStepKeepsDistinct(st: Merge, p: Json, pos: nat, suffix: nat -> string)
    requires IsPromptShape(p) && st.seen == KeySet(st.next) && DistinctKeys(Entries(st.next))
    requires Scalar(JString(IdOf(p))) in st.seen ==>
               Scalar(JString(DuplicateId(IdOf(p), suffix(pos)))) !in st.seen
    ensures DistinctKeys(Entries(MergeStep(MergeDuplicate, st, p, pos, suffix).next))
  {
    if Scalar(JString(IdOf(p))) !in st.seen {
      EntriesSnocDistinct(st.next, p);
    } else {
      EntriesSnocDistinct(st.next, WithId(p, DuplicateId(IdOf(p), suffix(pos))));
    }
  }

  /** merge-duplicate with fresh suffixes, on a table without duplicate ids,
      writes the stored records first, untouched, followed by every incoming
      record or its renamed copy. */
  lemma MergeDuplicateKeepsStore(existing: seq<Json>, incoming: seq<Json>, suffix: nat -> string)
    requires AllShaped(incoming) && DistinctKeys(Entries(existing)) && FreshSuffixes(existing, incoming, suffix)
    ensures var final := FinalPrompts(MergeDuplicate, existing, incoming, suffix);
            && |final| == |existing| + |incoming|
            && final[..|existing|] == existing
            && forall i :: 0 <= i < |incoming| ==> final[|existing| + i] == Appended(existing, incoming, i, suffix)
  {
    var next := Merged(MergeDuplicate, existing, incoming, suffix).next;
    DupKeepsDistinct(existing, incoming, suffix);
    MapFromDistinctPairs(Entries(next));
    ValuesOfEntries(next);
    AppendModesKeepExisting(MergeDuplicate, existing, incoming, suffix);
    DuplicateAppendsAll(existing, incoming, suffix);
  }

  // ---- Importing the same file twice ----

  /** One turn of the loop never forgets a key, and the incoming key is
      known afterwards. */
  lemma StepSeenGrows(mode: ImportMode, st: Merge, p: Json, pos: nat, suffix: nat -> string)
    requires IsPromptShape(p)
    ensures var after := MergeStep(mode, st, p, pos, suffix).seen;
            st.seen <= after && Scalar(JString(IdOf(p))) in after
  {
  }

  /** After the loop every incoming id is a key of the Map. */
  lemma {:induction false} IncomingSeen(mode: ImportMode, existing: seq<Json>, incoming: seq<Json>, suffix: nat -> string)
    requires AllShaped(incoming)
    ensures forall i :: 0 <= i < |incoming| ==>
              Scalar(JString(IdOf(incoming[i]))) in Merged(mode, existing, incoming, suffix).seen
    decreases |incoming|
  {
    if incoming != [] {
      var n := |incoming| - 1;
      PrefixShaped(incoming, n);
      IncomingSeen(mode, existing, incoming[..n], suffix);
      var prev := Merged(mode, existing, incoming[..n], suffix);
      assert Merged(mode, existing, incoming, suffix) == MergeStep(mode, prev, incoming[n], n, suffix);
      StepSeenGrows(mode, prev, incoming[n], n, suffix);
      forall i | 0 <= i < n
        ensures Scalar(JString(IdOf(incoming[i]))) in Merged(mode, existing, incoming, suffix).seen
      {
        assert incoming[..n][i] == incoming[i];
      }
    }
  }

  /** merge-skip over a table that already holds every incoming id skips
      them all: `next` stays the stored table. */
  lemma {:induction false} SkipAllHeld(held: seq<Json>, incoming: seq<Json>, suffix: nat -> string)
    requires AllShaped(incoming)
    requires forall i :: 0 <= i < |incoming| ==> Scalar(JString(IdOf(incoming[i]))) in KeySet(held)
    ensures Merged(MergeSkip, held, incoming, suffix).seen == KeySet(held)
    ensures Merged(MergeSkip, held, incoming, suffix).next == held
    decreases |incoming|
  {
    if incoming != [] {
      var n := |incoming| - 1;
      PrefixShaped(incoming, n);
      forall i | 0 <= i < n ensures Scalar(JString(IdOf(incoming[..n][i]))) in KeySet(held) {
        assert incoming[..n][i] == incoming[i];
      }
      SkipAllHeld(held, incoming[..n], suffix);
      var prev := Merged(MergeSkip, held, incoming[..n], suffix);
      assert Merged(MergeSkip, held, incoming, suffix) == MergeStep(MergeSkip, prev, incoming[n], n, suffix);
    }
  }

  /** A string id the stored records are filed under survives the final
      de-duplication. */
  lemma ScalarKept(records: seq<Json>, k: Key)
    requires k.Scalar? && k in KeySet(records)
    ensures k in KeySet(DedupById(records))
  {
    var ps := Entries(records);
    var m := MapFromPairs(ps);
    MapFromPairsIsMap(ps);
    var i :| 0 <= i < |records| && KeyAt(records[i], i) == k;
    assert ps[i].0 == k;
    var j := KeyIndex(m, k);
    assert j >= 0;
    DedupEntryKey(records, j);
    assert KeyAt(DedupById(records)[j], j) == k;
  }

  /** merge-skip is idempotent: importing the same file a second time
      writes the table the first import wrote, whatever the stored table
      held. */
  lemma SkipTwice(existing: seq<Json>, incoming: seq<Json>, suffix: nat -> string)
    requires AllShaped(incoming)
    ensures var once := FinalPrompts(MergeSkip, existing, incoming, suffix);
            FinalPrompts(MergeSkip, once, incoming, suffix) == once
  {
    var st := Merged(MergeSkip, existing, incoming, suffix);
    var once := DedupById(st.next);
    MergedCounts(MergeSkip, existing, incoming, suffix);
    IncomingSeen(MergeSkip, existing, incoming, suffix);
    forall i | 0 <= i < |incoming| ensures Scalar(JString(IdOf(incoming[i]))) in KeySet(once) {
      ScalarKept(st.next, Scalar(JString(IdOf(incoming[i]))));
    }
    SkipAllHeld(once, incoming, suffix);
    DedupDistinct(st.next);
    MapFromDistinctPairs(Entries(once));
    ValuesOfEntries(once);
  }

  /** Outside replace no two written records share a string id. */
  lemma FinalIdsUnique(mode: ImportMode, existing: seq<Json>, incoming: seq<Json>, suffix: nat -> string, id: string)
    requires AllShaped(incoming) && mode != Replace
    ensures var final := FinalPrompts(mode, existing, incoming, suffix);
            forall i, j :: 0 <= i < j < |final| && IdIs(final[i], id) ==> !IdIs(final[j], id)
  {
    DedupIdsUnique(Merged(mode, existing, incoming, suffix).next, id);
  }

  /** The counters the import reports when it is applied. */
  function AppliedCounts(mode: ImportMode, existing: seq<Json>, incoming: seq<Json>, suffix: nat -> string): (nat, nat, nat, nat)
    requires AllShaped(incoming)
  {
    if mode == Replace then (|incoming|, 0, 0, 0) else LoopCounts(mode, existing, incoming, suffix)
  }

  /** The counters as the loop leaves them, before replace resets them. */
  function LoopCounts(mode: ImportMode, existing: seq<Json>, incoming: seq<Json>, suffix: nat -> string): (nat, nat, nat, nat)
    requires AllShaped(incoming)
  {
    var st := Merged(mode, existing, incoming, suffix);
    (st.imported, st.skipped, st.overwritten, st.duplicated)
  }

  /** `Array.isArray(payload.prompts) && payload.prompts.every(validatePromptShape)`. */
  predicate ValidPrompts(payload: Json)
  {
    match Field(payload, "prompts")
    case Some(JArray(a)) => AllShaped(a)
    case _ => false
  }

  /** The loop of applyImport over the incoming records: `map` starts with
      the stored records' keys and `next` as a copy of them. */
  method MergeIncoming(mode: ImportMode, existing: seq<Json>, incoming: seq<Json>, suffix: nat -> string)
    returns (st: Merge)
    requires AllShaped(incoming)
    ensures st == Merged(mode, existing, incoming, suffix)
  {
    var seen := KeySet(existing);
    var next := existing;
    var imported, skipped, overwritten, duplicated := 0, 0, 0, 0;
    var i := 0;
    while i < |incoming|
      invariant 0 <= i <= |incoming|
      invariant AllShaped(incoming[..i])
      invariant Merge(seen, next, imported, skipped, overwritten, duplicated)
                  == Merged(mode, existing, incoming[..i], suffix)
    {
      MergedStep(mode, existing, incoming, i, suffix);
      var p := incoming[i];
      var key := Scalar(JString(IdOf(p)));
      if key !in seen {
        seen := seen + {key};
        next := next + [p];
        imported := imported + 1;
      } else {
        match mode
        case Replace =>
        case MergeSkip =>
          skipped := skipped + 1;
        case MergeOverwrite =>
          var idx := FindId(next, IdOf(p));
          if idx >= 0 {
            next := next[idx := p];
            overwritten := overwritten + 1;
          }
        case MergeDuplicate =>
          var newId := DuplicateId(IdOf(p), suffix(i));
          var dup := WithId(p, newId);
          seen := seen + {Scalar(JString(newId))};
          next := next + [dup];
          duplicated := duplicated + 1;
      }
      i := i + 1;
    }
    assert incoming[..i] == incoming;
    return Merge(seen, next, imported, skipped, overwritten, duplicated);
  }

  /** `try { restoreBackup(backupKey) } catch {}` while the table still
      reads as it did when the backup was taken: whether or not the browser
      accepts the write, it reads so afterwards, and no other item changes. */
  method Rollback(ls: LocalStorage, backupKey: string, ghost createdAt: string, ghost prompts: Json)
    requires backupKey != PromptsKey && backupKey in ls.cells
    requires ls.cells[backupKey] == Wellformed(BackupRecord(createdAt, prompts))
    requires Storage.GetPrompts(ls) == prompts
    modifies ls
    ensures Storage.GetPrompts(ls) == prompts
    ensures ls.cells - {PromptsKey} == old(ls.cells) - {PromptsKey}
    ensures backupKey in ls.cells && ls.cells[backupKey] == old(ls.cells[backupKey])
  {
    assert ls.Read(backupKey, JNull) == BackupRecord(createdAt, prompts);
    assert Truthy(BackupRecord(createdAt, prompts));
    assert RestoredText(BackupRecord(createdAt, prompts)) == Wellformed(prompts);
    var restored := RestoreBackup(ls, backupKey);
  }

  /** The `try` block of applyImport with its `catch`: merge, write, and on
      a failure restore the backup kept under `backupKey` and report the
      error with the counters reached so far. */
  method ImportWithRollback(ls: LocalStorage, incoming: seq<Json>, mode: ImportMode, backupKey: string,
                            ghost createdAt: string, suffix: nat -> string)
    returns (r: ImportResult)
    requires AllShaped(incoming) && backupKey != PromptsKey
    requires backupKey in ls.cells && ls.cells[backupKey] == Wellformed(BackupRecord(createdAt, Storage.GetPrompts(ls)))
    modifies ls
    ensures var before := old(Storage.GetPrompts(ls));
            && r.mode == mode
            && backupKey in ls.cells && ls.cells[backupKey] == old(ls.cells[backupKey])
            && ls.cells - {PromptsKey} == old(ls.cells) - {PromptsKey}
            && (r.applied <==>
                  && before.JArray? && Storage.NoNull(before.elems)
                  && ls.admits(old(ls.cells), PromptsKey,
                               Wellformed(JArray(FinalPrompts(mode, before.elems, incoming, suffix)))))
            && (r.applied ==>
                  && Storage.GetPrompts(ls) == JArray(FinalPrompts(mode, before.elems, incoming, suffix))
                  && r.errors == []
                  && (r.imported, r.skipped, r.overwritten, r.duplicated)
                       == AppliedCounts(mode, before.elems, incoming, suffix))
            && (!r.applied ==> Storage.GetPrompts(ls) == before && |r.errors| == 1)
            && (!r.applied && before.JArray? && Storage.NoNull(before.elems) ==>
                  && r.errors == [QuotaExceeded]
                  && (r.imported, r.skipped, r.overwritten, r.duplicated)
                       == LoopCounts(mode, before.elems, incoming, suffix))
            && (!(before.JArray? && Storage.NoNull(before.elems)) ==>
                  r.errors == [TypeError] && (r.imported, r.skipped, r.overwritten, r.duplicated) == (0, 0, 0, 0))
  {
    var existing := Storage.GetPrompts(ls);
    if !existing.JArray? || !Storage.NoNull(existing.elems) {
      Rollback(ls, backupKey, createdAt, existing);
      return ImportResult(false, mode, 0, 0, 0, 0, [TypeError]);
    }
    var merged := MergeIncoming(mode, existing.elems, incoming, suffix);
    var final := if mode == Replace then incoming else DedupById(merged.next);
    var ok := ls.SetItem(PromptsKey, Wellformed(JArray(final)));
    if !ok {
      Rollback(ls, backupKey, createdAt, existing);
      return ImportResult(false, mode, merged.imported, merged.skipped, merged.overwritten, merged.duplicated,
                          [QuotaExceeded]);
    }
    if mode == Replace {
      return ImportResult(true, mode, |incoming|, 0, 0, 0, []);
    }
    return ImportResult(true, mode, merged.imported, merged.skipped, merged.overwritten, merged.duplicated, []);
  }

  /** applyImport.  `now` is the backup's timestamp and `suffix(i)` the
      clock-and-random part of the id merge-duplicate gives the i-th record.
      A null payload throws on `payload.version`, and a refused backup write
      throws out of the function; every other failure is reported in the
      result. */
  method ApplyImport(ls: LocalStorage, payload: Json, mode: ImportMode, now: string, suffix: nat -> string)
    returns (o: Outcome<ImportResult>)
    modifies ls
    ensures payload.JNull? ==> o == Threw(TypeError) && ls.cells == old(ls.cells)
    ensures !payload.JNull? && Field(payload, "version") != Some(JNumber(1.0)) ==>
              && o == Returned(ImportResult(false, mode, 0, 0, 0, 0, [Error("Unsupported version")]))
              && ls.cells == old(ls.cells)
    ensures !payload.JNull? && Field(payload, "version") == Some(JNumber(1.0)) && !ValidPrompts(payload) ==>
              && o == Returned(ImportResult(false, mode, 0, 0, 0, 0, [Error("Invalid prompt data")]))
              && ls.cells == old(ls.cells)
    ensures var backup := Wellformed(BackupRecord(now, old(Storage.GetPrompts(ls))));
            Field(payload, "version") == Some(JNumber(1.0)) && ValidPrompts(payload)
            && !ls.admits(old(ls.cells), BackupKey(now), backup) ==>
              o == Threw(QuotaExceeded) && ls.cells == old(ls.cells)
    ensures var before := old(Storage.GetPrompts(ls));
            var backup := Wellformed(BackupRecord(now, before));
            var afterBackup := old(ls.cells)[BackupKey(now) := backup];
            var incoming := PromptsOf(payload);
            Field(payload, "version") == Some(JNumber(1.0)) && ValidPrompts(payload)
            && ls.admits(old(ls.cells), BackupKey(now), backup) ==>
              && o.Returned? && o.value.mode == mode
              && BackupKey(now) in ls.cells && ls.cells[BackupKey(now)] == backup
              && ls.cells - {PromptsKey} == afterBackup - {PromptsKey}
              && (o.value.applied <==>
                    && before.JArray? && Storage.NoNull(before.elems)
                    && ls.admits(afterBackup, PromptsKey,
                                 Wellformed(JArray(FinalPrompts(mode, before.elems, incoming, suffix)))))
              && (o.value.applied ==>
                    && Storage.GetPrompts(ls) == JArray(FinalPrompts(mode, before.elems, incoming, suffix))
                    && o.value.errors == []
                    && (o.value.imported, o.value.skipped, o.value.overwritten, o.value.duplicated)
                         == AppliedCounts(mode, before.elems, incoming, suffix))
              && (!o.value.applied ==> Storage.GetPrompts(ls) == before && |o.value.errors| == 1)
              && (!o.value.applied && before.JArray? && Storage.NoNull(before.elems) ==>
                    && o.value.errors == [QuotaExceeded]
                    && (o.value.imported, o.value.skipped, o.value.overwritten, o.value.duplicated)
                         == LoopCounts(mode, before.elems, incoming, suffix))
              && (!(before.JArray? && Storage.NoNull(before.elems)) ==>
                    && o.value.errors == [TypeError]
                    && (o.value.imported, o.value.skipped, o.value.overwritten, o.value.duplicated) == (0, 0, 0, 0))
  {
    var result := ImportResult(false, mode, 0, 0, 0, 0, []);
    var version := Get(payload, "version");
    if version.Threw? {
      return Threw(version.fault);
    }
    if version.value != Some(JNumber(1.0)) {
      return Returned(result.(errors := [Error("Unsupported version")]));
    }
    if !ValidPrompts(payload) {
      return Returned(result.(errors := [Error("Invalid prompt data")]));
    }
    var incoming := PromptsOf(payload);

    ghost var before := Storage.GetPrompts(ls);
    var backup := BackupPrompts(ls, now);
    if backup.Threw? {
      return Threw(backup.fault);
    }
    BackupKeyIsNotPromptsKey(now);
    assert Storage.GetPrompts(ls) == before;
    var r := ImportWithRollback(ls, incoming, mode, backup.value, now, suffix);
    return Returned(r);
  }

  /** Exporting the library and importing that file back under replace
      leaves the table reading as it did. */
  method ExportThenReplace(ls: LocalStorage, exportedAt: string, importedAt: string,
                           ratings: map<string, Json>, suffix: nat -> string)
    returns (exported: Outcome<ExportFile>, imported: Outcome<ImportResult>)
    modifies ls
    ensures exported.Returned? && imported.Returned? && imported.value.applied ==>
              Storage.GetPrompts(ls) == old(Storage.GetPrompts(ls))
  {
    exported := BuildExportPayload(ls, exportedAt, ratings);
    imported := Returned(ImportResult(false, Replace, 0, 0, 0, 0, []));
    if exported.Returned? {
      var file := ExportJson(exported.value);
      assert Field(file, "version") == Some(JNumber(1.0));
      assert Field(file, "prompts") == Some(JArray(exported.value.prompts));
      imported := ApplyImport(ls, file, Replace, importedAt, suffix);
    }
  }
}
