/** Prompt records as the import/export engine sees them
    (src/utils/exportImport.ts): the shape check, the `id` keys a JavaScript
    Map files records under, and the insertion-ordered dictionary that
    `new Map(pairs)` builds. */
module PromptRecords {
  import opened Js

  /** validatePromptShape: a non-null object (arrays have none of these
      properties) with string id, title and content and a number createdAt. */
  predicate IsPromptShape(p: Json)
  {
    && p.JObject?
    && "id" in p.fields && p.fields["id"].JString?
    && "title" in p.fields && p.fields["title"].JString?
    && "content" in p.fields && p.fields["content"].JString?
    && "createdAt" in p.fields && p.fields["createdAt"].JNumber?
  }

  /** `prompts.every(validatePromptShape)`. */
  predicate AllShaped(prompts: seq<Json>)
  {
    forall i :: 0 <= i < |prompts| ==> IsPromptShape(prompts[i])
  }

  /** The id of a record that passed the shape check. */
  function IdOf(p: Json): string
    requires IsPromptShape(p)
  {
    p.fields["id"].s
  }

  /** `{ ...p, id: newId }` for a record that passed the shape check. */
  function WithId(p: Json, newId: string): (r: Json)
    requires IsPromptShape(p)
    ensures IsPromptShape(r) && IdOf(r) == newId
    ensures r.fields - {"id"} == p.fields - {"id"}
  {
    JObject(p.fields["id" := JString(newId)])
  }

  /** How a JavaScript Map compares keys (SameValueZero): undefined,
      primitives by value, objects and arrays by identity.  Records decoded
      from storage are distinct objects, so an object-valued id is identified
      by its record's position. */
  datatype Key = Undefined | Scalar(value: Json) | Identity(position: nat)

  /** The Map key of `p.id` for the non-null record at position `pos`. */
  function KeyAt(p: Json, pos: nat): (k: Key)
    ensures IsPromptShape(p) ==> k == Scalar(JString(IdOf(p)))
  {
    match Field(p, "id")
    case None => Undefined
    case Some(v) => if IsObjectLike(v) then Identity(pos) else Scalar(v)
  }

  /** `records.map(p => [p.id, p])`. */
  function Entries(records: seq<Json>): (ps: seq<(Key, Json)>)
    ensures |ps| == |records|
    ensures forall i :: 0 <= i < |ps| ==> ps[i] == (KeyAt(records[i], i), records[i])
  {
    seq(|records|, i requires 0 <= i < |records| => (KeyAt(records[i], i), records[i]))
  }

  /** `records.findIndex(p => p.id === id)` over records that are not null. */
  function FindId(records: seq<Json>, id: string): (idx: int)
    ensures -1 <= idx < |records|
    ensures idx == -1 <==> forall i :: 0 <= i < |records| ==> !IdIs(records[i], id)
    ensures idx >= 0 ==> IdIs(records[idx], id)
    ensures idx >= 0 ==> forall i :: 0 <= i < idx ==> !IdIs(records[i], id)
  {
    if records == [] then -1
    else if IdIs(records[0], id) then 0
    else
      var k := FindId(records[1..], id);
      if k == -1 then -1 else k + 1
  }

  // ---- Insertion-ordered maps ----

  /** First position holding key `k`, or -1. */
  function KeyIndex<K(==, !new), V>(ps: seq<(K, V)>, k: K): (j: int)
    ensures -1 <= j < |ps|
    ensures j == -1 <==> forall i :: 0 <= i < |ps| ==> ps[i].0 != k
    ensures j >= 0 ==> ps[j].0 == k && forall i :: 0 <= i < j ==> ps[i].0 != k
  {
    if ps == [] then -1
    else if ps[0].0 == k then 0
    else
      var j := KeyIndex(ps[1..], k);
      if j == -1 then -1 else j + 1
  }

  /** Last position holding key `k`, or -1. */
  function LastIndex<K(==, !new), V>(ps: seq<(K, V)>, k: K): (j: int)
    ensures -1 <= j < |ps|
    ensures j == -1 <==> forall i :: 0 <= i < |ps| ==> ps[i].0 != k
    ensures j >= 0 ==> ps[j].0 == k && forall i :: j < i < |ps| ==> ps[i].0 != k
  {
    if ps == [] then -1
    else if ps[|ps| - 1].0 == k then |ps| - 1
    else LastIndex(ps[..|ps| - 1], k)
  }

  predicate DistinctKeys<K(==, !new), V>(ps: seq<(K, V)>)
  {
    forall i, j :: 0 <= i < j < |ps| ==> ps[i].0 != ps[j].0
  }

  /** `map.set(k, v)`: a key already present keeps its position and takes the
      new value; a new key goes last. */
  function MapSet<K(==, !new), V>(m: seq<(K, V)>, k: K, v: V): seq<(K, V)>
  {
    var j := KeyIndex(m, k);
    if j >= 0 then m[j := (k, v)] else m + [(k, v)]
  }

  lemma {:induction false} KeyIndexSnoc<K(!new), V>(ps: seq<(K, V)>, x: (K, V), k: K)
    ensures KeyIndex(ps + [x], k) ==
              if KeyIndex(ps, k) >= 0 then KeyIndex(ps, k) else if x.0 == k then |ps| else -1
    decreases |ps|
  {
    if ps == [] {
      assert ps + [x] == [x];
    } else {
      assert (ps + [x])[0] == ps[0];
      if ps[0].0 != k {
        assert (ps + [x])[1..] == ps[1..] + [x];
        KeyIndexSnoc(ps[1..], x, k);
      }
    }
  }

  lemma LastIndexSnoc<K(!new), V>(ps: seq<(K, V)>, x: (K, V), k: K)
    ensures LastIndex(ps + [x], k) == if x.0 == k then |ps| else LastIndex(ps, k)
  {
    assert (ps + [x])[..|ps|] == ps;
  }

  /** Sequences with the same keys at the same positions agree on where
      every key is. */
  lemma {:induction false} SameKeysSameIndex<K(!new), V>(a: seq<(K, V)>, b: seq<(K, V)>, k: K)
    requires |a| == |b| && forall i :: 0 <= i < |a| ==> a[i].0 == b[i].0
    ensures KeyIndex(a, k) == KeyIndex(b, k)
    decreases |a|
  {
    if a != [] && a[0].0 != k {
      SameKeysSameIndex(a[1..], b[1..], k);
    }
  }

  /** Every key of `m` is a key of `ps` and the other way round. */
  ghost predicate SameKeySet<K(!new), V>(m: seq<(K, V)>, ps: seq<(K, V)>)
  {
    forall k :: KeyIndex(m, k) >= 0 <==> KeyIndex(ps, k) >= 0
  }

  /** Every entry of `m` is the last pair of `ps` with its key. */
  ghost predicate LastWritten<K(!new), V>(m: seq<(K, V)>, ps: seq<(K, V)>)
  {
    forall j :: 0 <= j < |m| ==> LastIndex(ps, m[j].0) >= 0 && m[j] == ps[LastIndex(ps, m[j].0)]
  }

  /** The entries of `m` are in the order in which `ps` first names them. */
  ghost predicate FirstOccurrenceOrder<K(!new), V>(m: seq<(K, V)>, ps: seq<(K, V)>)
  {
    forall i, j :: 0 <= i < j < |m| ==> KeyIndex(ps, m[i].0) < KeyIndex(ps, m[j].0)
  }

  /** Replacing an entry by one with the same key moves no key. */
  lemma UpdateKeepsIndices<K(!new), V>(m: seq<(K, V)>, j: int, x: (K, V))
    requires 0 <= j < |m| && m[j].0 == x.0
    ensures forall k :: KeyIndex(m[j := x], k) == KeyIndex(m, k)
  {
    forall k ensures KeyIndex(m[j := x], k) == KeyIndex(m, k) {
      SameKeysSameIndex(m[j := x], m, k);
    }
  }

  /** What `new Map(pairs)` promises of the Map `m` built from `ps`: one
      entry per distinct key, at the position where the key first occurs,
      holding the value written last. */
  ghost predicate IsMapOf<K(!new), V>(m: seq<(K, V)>, ps: seq<(K, V)>)
  {
    DistinctKeys(m) && SameKeySet(m, ps) && LastWritten(m, ps) && FirstOccurrenceOrder(m, ps)
  }

  lemma SnocIndices<K(!new), V>(ps: seq<(K, V)>, x: (K, V))
    ensures forall k :: KeyIndex(ps + [x], k) == if KeyIndex(ps, k) >= 0 then KeyIndex(ps, k) else if x.0 == k then |ps| else -1
    ensures forall k :: LastIndex(ps + [x], k) == if x.0 == k then |ps| else LastIndex(ps, k)
  {
    forall k ensures KeyIndex(ps + [x], k) == if KeyIndex(ps, k) >= 0 then KeyIndex(ps, k) else if x.0 == k then |ps| else -1 {
      KeyIndexSnoc(ps, x, k);
    }
    forall k ensures LastIndex(ps + [x], k) == if x.0 == k then |ps| else LastIndex(ps, k) {
      LastIndexSnoc(ps, x, k);
    }
  }

  lemma PresentDistinct<K(!new), V>(m: seq<(K, V)>, j0: int, x: (K, V))
    requires DistinctKeys(m) && 0 <= j0 < |m| && m[j0].0 == x.0
    ensures DistinctKeys(m[j0 := x])
  {
    var m2 := m[j0 := x];
    forall i, j | 0 <= i < j < |m2| ensures m2[i].0 != m2[j].0 {
      assert m2[i].0 == m[i].0 && m2[j].0 == m[j].0;
    }
  }

  lemma PresentKeySet<K(!new), V>(m: seq<(K, V)>, ps: seq<(K, V)>, j0: int, x: (K, V))
    requires SameKeySet(m, ps) && 0 <= j0 < |m| && m[j0].0 == x.0
    ensures SameKeySet(m[j0 := x], ps + [x])
  {
    var m2 := m[j0 := x];
    SnocIndices(ps, x);
    forall k ensures KeyIndex(m2, k) == KeyIndex(m, k) {
      SameKeysSameIndex(m2, m, k);
    }
  }

  lemma PresentLastWritten<K(!new), V>(m: seq<(K, V)>, ps: seq<(K, V)>, j0: int, x: (K, V))
    requires DistinctKeys(m) && LastWritten(m, ps) && 0 <= j0 < |m| && m[j0].0 == x.0
    ensures LastWritten(m[j0 := x], ps + [x])
  {
    var m2 := m[j0 := x];
    SnocIndices(ps, x);
    forall j | 0 <= j < |m2| ensures LastIndex(ps + [x], m2[j].0) >= 0 && m2[j] == (ps + [x])[LastIndex(ps + [x], m2[j].0)] {
      if j != j0 {
        assert m2[j] == m[j] && m[j].0 != x.0;
      }
    }
  }

  lemma PresentOrder<K(!new), V>(m: seq<(K, V)>, ps: seq<(K, V)>, j0: int, x: (K, V))
    requires SameKeySet(m, ps) && FirstOccurrenceOrder(m, ps) && 0 <= j0 < |m| && m[j0].0 == x.0
    ensures FirstOccurrenceOrder(m[j0 := x], ps + [x])
  {
    var m2 := m[j0 := x];
    SnocIndices(ps, x);
    forall i, j | 0 <= i < j < |m2| ensures KeyIndex(ps + [x], m2[i].0) < KeyIndex(ps + [x], m2[j].0) {
      assert m2[i].0 == m[i].0 && m2[j].0 == m[j].0;
      assert KeyIndex(m, m[i].0) >= 0 && KeyIndex(m, m[j].0) >= 0;
    }
  }

  lemma AbsentDistinct<K(!new), V>(m: seq<(K, V)>, x: (K, V))
    requires DistinctKeys(m) && KeyIndex(m, x.0) == -1
    ensures DistinctKeys(m + [x])
  {
    var m2 := m + [x];
    forall i, j | 0 <= i < j < |m2| ensures m2[i].0 != m2[j].0 {
      assert m2[i] == m[i];
      if j < |m| {
        assert m2[j] == m[j];
      }
    }
  }

  lemma AbsentKeySet<K(!new), V>(m: seq<(K, V)>, ps: seq<(K, V)>, x: (K, V))
    requires SameKeySet(m, ps)
    ensures SameKeySet(m + [x], ps + [x])
  {
    SnocIndices(ps, x);
    SnocIndices(m, x);
  }

  lemma AbsentLastWritten<K(!new), V>(m: seq<(K, V)>, ps: seq<(K, V)>, x: (K, V))
    requires LastWritten(m, ps) && KeyIndex(m, x.0) == -1
    ensures LastWritten(m + [x], ps + [x])
  {
    var m2 := m + [x];
    SnocIndices(ps, x);
    forall j | 0 <= j < |m2| ensures LastIndex(ps + [x], m2[j].0) >= 0 && m2[j] == (ps + [x])[LastIndex(ps + [x], m2[j].0)] {
      if j < |m| {
        assert m2[j] == m[j] && m[j].0 != x.0;
      }
    }
  }

  lemma AbsentOrder<K(!new), V>(m: seq<(K, V)>, ps: seq<(K, V)>, x: (K, V))
    requires SameKeySet(m, ps) && FirstOccurrenceOrder(m, ps) && KeyIndex(m, x.0) == -1
    ensures FirstOccurrenceOrder(m + [x], ps + [x])
  {
    var m2 := m + [x];
    SnocIndices(ps, x);
    forall i, j | 0 <= i < j < |m2| ensures KeyIndex(ps + [x], m2[i].0) < KeyIndex(ps + [x], m2[j].0) {
      assert m2[i] == m[i];
      assert KeyIndex(m, m[i].0) >= 0;
      if j < |m| {
        assert m2[j] == m[j];
        assert KeyIndex(m, m[j].0) >= 0;
      }
    }
  }

  /** One more `map.set` keeps the Map in step with its pairs. */
  lemma MapSetKeepsMap<K(!new), V>(m: seq<(K, V)>, ps: seq<(K, V)>, x: (K, V))
    requires IsMapOf(m, ps)
    ensures IsMapOf(MapSet(m, x.0, x.1), ps + [x])
  {
    var j0 := KeyIndex(m, x.0);
    if j0 >= 0 {
      assert MapSet(m, x.0, x.1) == m[j0 := x];
      PresentDistinct(m, j0, x);
      PresentKeySet(m, ps, j0, x);
      PresentLastWritten(m, ps, j0, x);
      PresentOrder(m, ps, j0, x);
    } else {
      assert MapSet(m, x.0, x.1) == m + [x];
      AbsentDistinct(m, x);
      AbsentKeySet(m, ps, x);
      AbsentLastWritten(m, ps, x);
      AbsentOrder(m, ps, x);
    }
  }

  /** `new Map(pairs)`. */
  function MapFromPairs<K(==, !new), V>(ps: seq<(K, V)>): seq<(K, V)>
  {
    if ps == [] then []
    else
      var x := ps[|ps| - 1];
      MapSet(MapFromPairs(ps[..|ps| - 1]), x.0, x.1)
  }

  /** The Map built from pairs has each key once, where it first occurs,
      holding the value written last. */
  lemma {:induction false} MapFromPairsIsMap<K(!new), V>(ps: seq<(K, V)>)
    ensures IsMapOf(MapFromPairs(ps), ps)
    decreases |ps|
  {
    if ps != [] {
      var init := ps[..|ps| - 1];
      var x := ps[|ps| - 1];
      MapFromPairsIsMap(init);
      MapSetKeepsMap(MapFromPairs(init), init, x);
      assert ps == init + [x];
    }
  }

  /** `Array.from(map.values())`. */
  function Values<K, V>(m: seq<(K, V)>): (vs: seq<V>)
    ensures |vs| == |m|
    ensures forall i :: 0 <= i < |m| ==> vs[i] == m[i].1
  {
    seq(|m|, i requires 0 <= i < |m| => m[i].1)
  }

  /** The values of `records.map(p => [p.id, p])` are the records, in order. */
  lemma ValuesOfEntries(records: seq<Json>)
    ensures Values(Entries(records)) == records
  {
  }

  /** `Array.from(new Map(records.map(p => [p.id, p])).values())`: the final
      de-duplication of the import engine. */
  function DedupById(records: seq<Json>): seq<Json>
  {
    Values(MapFromPairs(Entries(records)))
  }

  /** Filing a record of the de-duplicated list under its new position: a
      scalar or undefined id gives the Map's key again, an object id the
      identity of the new position. */
  lemma DedupEntryKey(records: seq<Json>, j: nat)
    requires IsMapOf(MapFromPairs(Entries(records)), Entries(records))
    requires j < |MapFromPairs(Entries(records))|
    ensures var m := MapFromPairs(Entries(records));
            KeyAt(m[j].1, j) == if m[j].0.Identity? then Identity(j) else m[j].0
  {
    var ps := Entries(records);
    var m := MapFromPairs(ps);
    var i := LastIndex(ps, m[j].0);
    assert m[j] == ps[i] == (KeyAt(records[i], i), records[i]);
  }

  /** The final de-duplication leaves no two records filed under one key,
      whatever the input held. */
  lemma DedupDistinct(records: seq<Json>)
    ensures DistinctKeys(Entries(DedupById(records)))
  {
    var ps := Entries(records);
    var m := MapFromPairs(ps);
    var es := Entries(DedupById(records));
    MapFromPairsIsMap(ps);
    forall i, j | 0 <= i < j < |es| ensures es[i].0 != es[j].0 {
      DedupEntryKey(records, i);
      DedupEntryKey(records, j);
      assert m[i].0 != m[j].0;
    }
  }

  /** Pairs whose keys are already distinct come out of the Map unchanged. */
  lemma {:induction false} MapFromDistinctPairs<K(!new), V>(ps: seq<(K, V)>)
    requires DistinctKeys(ps)
    ensures MapFromPairs(ps) == ps
    decreases |ps|
  {
    if ps != [] {
      var init := ps[..|ps| - 1];
      var x := ps[|ps| - 1];
      DistinctInit(ps);
      MapFromDistinctPairs(init);
      MapFromPairsLast(init, x);
      assert ps == init + [x];
    }
  }

  /** The last pair is absent from the rest, so `map.set` appends it. */
  lemma MapFromPairsLast<K(!new), V>(init: seq<(K, V)>, x: (K, V))
    requires KeyIndex(init, x.0) == -1
    requires MapFromPairs(init) == init
    ensures MapFromPairs(init + [x]) == init + [x]
  {
    var ps := init + [x];
    assert ps[..|ps| - 1] == init && ps[|ps| - 1] == x;
    MapSetAbsent(init, x);
  }

  lemma MapSetAbsent<K(!new), V>(m: seq<(K, V)>, x: (K, V))
    requires KeyIndex(m, x.0) == -1
    ensures MapSet(m, x.0, x.1) == m + [x]
  {
  }

  lemma DistinctInit<K(!new), V>(ps: seq<(K, V)>)
    requires DistinctKeys(ps) && ps != []
    ensures DistinctKeys(ps[..|ps| - 1]) && KeyIndex(ps[..|ps| - 1], ps[|ps| - 1].0) == -1
  {
    var init := ps[..|ps| - 1];
    var x := ps[|ps| - 1];
    forall i, j | 0 <= i < j < |init| ensures init[i].0 != init[j].0 {
      assert init[i] == ps[i] && init[j] == ps[j];
    }
    forall i | 0 <= i < |init| ensures init[i].0 != x.0 {
      assert init[i] == ps[i];
    }
  }

  lemma KeyOfId(p: Json, pos: nat, id: string)
    requires IdIs(p, id)
    ensures KeyAt(p, pos) == Scalar(JString(id))
  {
  }

  /** After de-duplication no two records carry the same string id. */
  lemma DedupIdsUnique(records: seq<Json>, id: string)
    ensures var out := DedupById(records);
            forall i, j :: 0 <= i < j < |out| && IdIs(out[i], id) ==> !IdIs(out[j], id)
  {
    var ps := Entries(records);
    var m := MapFromPairs(ps);
    var out := Values(m);
    MapFromPairsIsMap(ps);
    forall i | 0 <= i < |out| ensures IdIs(out[i], id) ==> m[i].0 == Scalar(JString(id)) {
      var li := LastIndex(ps, m[i].0);
      assert m[i] == ps[li] && out[i] == records[li];
      if IdIs(out[i], id) {
        KeyOfId(records[li], li, id);
      }
    }
  }
}
