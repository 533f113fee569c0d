/** The prompts table (src/utils/storage.ts): the list of prompt records kept
    as JSON under one localStorage key.  The import/export engine reads and
    writes the same key. */
module Storage {
  import opened Js
  import opened Browser

  const StorageKey: string := "prompt-library.prompts"

  /** getPrompts: the decoded table, or [] when the key is absent or its text
      does not parse.  A stored value that is not an array is returned as it
      is, as in the source. */
  function GetPrompts(ls: LocalStorage): (r: Json)
    reads ls
    ensures StorageKey !in ls.cells ==> r == JArray([])
    ensures StorageKey in ls.cells ==>
              r == (if ls.cells[StorageKey].Wellformed? then ls.cells[StorageKey].value else JArray([]))
  {
    ls.Read(StorageKey, JArray([]))
  }

  predicate NoNull(s: seq<Json>)
  {
    forall i :: 0 <= i < |s| ==> !s[i].JNull?
  }

  /** `s.filter(p => p.id !== id)` over records that are not null. */
  function RemoveId(s: seq<Json>, id: string): (r: seq<Json>)
    ensures |r| <= |s|
    ensures forall x :: x in r <==> x in s && !IdIs(x, id)
    ensures (forall i :: 0 <= i < |s| ==> !IdIs(s[i], id)) ==> r == s
  {
    if s == [] then []
    else if IdIs(s[0], id) then RemoveId(s[1..], id)
    else [s[0]] + RemoveId(s[1..], id)
  }

  /** Filtering keeps the relative order of what it keeps: it distributes
      over concatenation. */
  lemma {:induction false} RemoveIdConcat(a: seq<Json>, b: seq<Json>, id: string)
    ensures RemoveId(a + b, id) == RemoveId(a, id) + RemoveId(b, id)
    decreases |a|
  {
    if a != [] {
      assert (a + b)[0] == a[0] && (a + b)[1..] == a[1..] + b;
      RemoveIdConcat(a[1..], b, id);
      var tail := RemoveId(a[1..], id);
      if !IdIs(a[0], id) {
        assert RemoveId(a + b, id) == [a[0]] + (tail + RemoveId(b, id));
        assert RemoveId(a, id) == [a[0]] + tail;
      }
    } else {
      assert a + b == b;
    }
  }

  /** Prepending a record and then removing its id gives back the original
      list when no record had that id. */
  lemma RemoveIdAfterPrepend(p: Json, s: seq<Json>, id: string)
    requires IdIs(p, id)
    requires forall i :: 0 <= i < |s| ==> !IdIs(s[i], id)
    ensures RemoveId([p] + s, id) == s
  {
    assert ([p] + s)[1..] == s;
  }

  /** savePrompt: writes `[prompt, ...prompts]`; nothing is de-duplicated.
      Spreading a stored value that is neither an array nor a string throws. */
  method SavePrompt(ls: LocalStorage, prompt: Json) returns (o: Outcome<()>)
    modifies ls
    ensures Spread(old(GetPrompts(ls))).Threw? ==> o == Threw(TypeError) && ls.cells == old(ls.cells)
    ensures Spread(old(GetPrompts(ls))).Returned? ==>
              var text := Wellformed(JArray([prompt] + Spread(old(GetPrompts(ls))).value));
              && (o.Returned? <==> ls.admits(old(ls.cells), StorageKey, text))
              && (o.Threw? ==> o.fault == QuotaExceeded)
              && ls.cells == if o.Returned? then old(ls.cells)[StorageKey := text] else old(ls.cells)
  {
    var prompts := GetPrompts(ls);
    var spread := Spread(prompts);
    if spread.Threw? {
      return Threw(spread.fault);
    }
    var next := [prompt] + spread.value;
    var ok := ls.SetItem(StorageKey, Wellformed(JArray(next)));
    if !ok {
      return Threw(QuotaExceeded);
    }
    return Returned(());
  }

  /** deletePrompt: writes the table without the records whose id is `id`.
      A stored value that is not an array, or a null record, throws. */
  method DeletePrompt(ls: LocalStorage, id: string) returns (o: Outcome<()>)
    modifies ls
    ensures var before := old(GetPrompts(ls));
            !(before.JArray? && NoNull(before.elems)) ==> o == Threw(TypeError) && ls.cells == old(ls.cells)
    ensures var before := old(GetPrompts(ls));
            before.JArray? && NoNull(before.elems) ==>
              var text := Wellformed(JArray(RemoveId(before.elems, id)));
              && (o.Returned? <==> ls.admits(old(ls.cells), StorageKey, text))
              && (o.Threw? ==> o.fault == QuotaExceeded)
              && ls.cells == if o.Returned? then old(ls.cells)[StorageKey := text] else old(ls.cells)
  {
    var prompts := GetPrompts(ls);
    if !prompts.JArray? || !NoNull(prompts.elems) {
      return Threw(TypeError);
    }
    var next := RemoveId(prompts.elems, id);
    var ok := ls.SetItem(StorageKey, Wellformed(JArray(next)));
    if !ok {
      return Threw(QuotaExceeded);
    }
    return Returned(());
  }

  /** clearAll: removes the item, after which getPrompts reads []. */
  method ClearAll(ls: LocalStorage)
    modifies ls
    ensures ls.cells == old(ls.cells) - {StorageKey}
    ensures GetPrompts(ls) == JArray([])
  {
    ls.RemoveItem(StorageKey);
  }

  /** Saving a prompt whose id the table does not hold and then deleting that
      id leaves getPrompts reading the table it read before. */
  method SaveThenDelete(ls: LocalStorage, prompt: Json, id: string)
    returns (saved: Outcome<()>, deleted: Outcome<()>)
    requires IdIs(prompt, id)
    requires GetPrompts(ls).JArray? && NoNull(GetPrompts(ls).elems)
    requires forall i :: 0 <= i < |GetPrompts(ls).elems| ==> !IdIs(GetPrompts(ls).elems[i], id)
    modifies ls
    ensures saved.Returned? && deleted.Returned? ==> GetPrompts(ls) == old(GetPrompts(ls))
  {
    var before := GetPrompts(ls).elems;
    saved := SavePrompt(ls, prompt);
    deleted := Returned(());
    if saved.Returned? {
      assert GetPrompts(ls) == JArray([prompt] + before);
      deleted := DeletePrompt(ls, id);
      RemoveIdAfterPrepend(prompt, before, id);
    }
  }
}
