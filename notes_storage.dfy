/** The notes table (src/utils/notesStorage.ts): for every prompt id, the
    list of notes attached to that prompt, newest first.  The table is kept
    under its own localStorage key and is modelled already decoded. */
module NotesStorage {
  import opened Js
  import opened Sorting

  const StorageKey: string := "prompt-notes:v1"

  datatype Note = Note(id: string, promptId: string, content: string, createdAt: int, updatedAt: int)

  /** `all[promptId] ?? []` for an own entry or a name JSON.parse's plain
      object does not inherit. */
  function NotesFor(all: map<string, seq<Note>>, promptId: string): seq<Note>
  {
    if promptId in all then all[promptId] else []
  }

  /** The names a plain object inherits from Object.prototype. */
  const InheritedNames: set<string> :=
    {"constructor", "hasOwnProperty", "isPrototypeOf", "propertyIsEnumerable", "toLocaleString",
     "toString", "valueOf", "__proto__", "__defineGetter__", "__defineSetter__",
     "__lookupGetter__", "__lookupSetter__"}

  /** `all[promptId]` is a member of Object.prototype (a function, or the
      prototype itself for `__proto__`) rather than a list: spreading it,
      `findIndex` and `filter` on it all throw a TypeError. */
  predicate Inherits(all: map<string, seq<Note>>, promptId: string)
  {
    promptId !in all && promptId in InheritedNames
  }

  predicate SortedDesc(s: seq<Note>)
  {
    forall i, j :: 0 <= i < j < |s| ==> s[i].updatedAt >= s[j].updatedAt
  }

  /** Newer notes rank lower, so that sorting by rank puts them first. */
  function NoteRank(n: Note): int
  {
    -n.updatedAt
  }

  /** The notes of `s` stamped `t`, in their order in `s`. */
  function StampedAt(s: seq<Note>, t: int): seq<Note>
  {
    RankedAt(s, NoteRank, -t)
  }

  /** `[...notes].sort((a, b) => b.updatedAt - a.updatedAt)`: the stable
      sort of a copy, newest first. */
  function SortByUpdatedDesc(s: seq<Note>): seq<Note>
  {
    SortBy(s, NoteRank)
  }

  /** The sort puts the newest notes first, keeps every note, and keeps
      notes with the same stamp in their order. */
  lemma SortByUpdatedDescSpec(s: seq<Note>)
    ensures var r := SortByUpdatedDesc(s);
            && SortedDesc(r)
            && multiset(r) == multiset(s)
            && forall t :: StampedAt(r, t) == StampedAt(s, t)
  {
    var r := SortByUpdatedDesc(s);
    SortBySpec(s, NoteRank);
    RankOrderIsNewestFirst(r);
    SortKeepsStamps(s);
  }

  lemma SortKeepsStamps(s: seq<Note>)
    ensures forall t :: StampedAt(SortByUpdatedDesc(s), t) == StampedAt(s, t)
  {
    forall t ensures StampedAt(SortByUpdatedDesc(s), t) == StampedAt(s, t) {
      SortIsStable(s, NoteRank, -t);
    }
  }

  lemma RankOrderIsNewestFirst(r: seq<Note>)
    requires SortedBy(r, NoteRank)
    ensures SortedDesc(r)
  {
    forall i, j | 0 <= i < j < |r| ensures r[i].updatedAt >= r[j].updatedAt {
      assert NoteRank(r[i]) <= NoteRank(r[j]);
    }
  }

  /** `arr.findIndex(n => n.id === id)`. */
  function FindNote(arr: seq<Note>, id: string): (idx: int)
    ensures -1 <= idx < |arr|
    ensures idx == -1 <==> forall i :: 0 <= i < |arr| ==> arr[i].id != id
    ensures idx >= 0 ==> arr[idx].id == id && forall i :: 0 <= i < idx ==> arr[i].id != id
  {
    if arr == [] then -1
    else if arr[0].id == id then 0
    else
      var k := FindNote(arr[1..], id);
      if k == -1 then -1 else k + 1
  }

  /** `arr.filter(n => n.id !== id)`. */
  function DropNote(arr: seq<Note>, id: string): (r: seq<Note>)
    ensures |r| <= |arr|
    ensures forall n :: n in r <==> n in arr && n.id != id
  {
    if arr == [] then []
    else (if arr[0].id == id then [] else [arr[0]]) + DropNote(arr[1..], id)
  }

  /** Dropping keeps the order of the notes it keeps. */
  lemma {:induction false} DropNoteConcat(a: seq<Note>, b: seq<Note>, id: string)
    ensures DropNote(a + b, id) == DropNote(a, id) + DropNote(b, id)
    decreases |a|
  {
    if a == [] {
      assert a + b == b;
    } else {
      assert (a + b)[1..] == a[1..] + b;
      DropNoteConcat(a[1..], b, id);
    }
  }

  /** Dropping an id that no note carries changes nothing. */
  lemma {:induction false} DropAbsentNote(arr: seq<Note>, id: string)
    requires forall i :: 0 <= i < |arr| ==> arr[i].id != id
    ensures DropNote(arr, id) == arr
    decreases |arr|
  {
    if arr != [] {
      DropAbsentNote(arr[1..], id);
    }
  }

  /** Adding a note under a fresh id and then deleting it gives back the
      list the prompt had. */
  lemma DeleteUndoesAdd(note: Note, arr: seq<Note>)
    requires forall i :: 0 <= i < |arr| ==> arr[i].id != note.id
    ensures DropNote([note] + arr, note.id) == arr
  {
    assert ([note] + arr)[1..] == arr;
    DropAbsentNote(arr, note.id);
  }

  class NotesStore {
    /** The decoded table; None when the key is absent or its text does not
        parse, which readAll reads as {}. */
    var stored: Option<map<string, seq<Note>>>

    constructor (stored: Option<map<string, seq<Note>>>)
      ensures this.stored == stored
    {
      this.stored := stored;
    }

    /** readAll. */
    function All(): map<string, seq<Note>>
      reads this
    {
      if stored.Some? then stored.value else map[]
    }

    /** getNotes: the prompt's notes, newest first, the stored list itself
        untouched; [] for a prompt without notes; a TypeError for a name the
        table inherits. */
    function GetNotes(promptId: string): (r: Outcome<seq<Note>>)
      reads this
      ensures r.Threw? <==> Inherits(All(), promptId)
      ensures r.Threw? ==> r.fault == TypeError
      ensures r.Returned? && promptId !in All() ==> r.value == []
      ensures r.Returned? ==>
                && SortedDesc(r.value)
                && multiset(r.value) == multiset(NotesFor(All(), promptId))
                && forall t :: StampedAt(r.value, t) == StampedAt(NotesFor(All(), promptId), t)
    {
      if Inherits(All(), promptId) then Threw(TypeError)
      else
        var notes := NotesFor(All(), promptId);
        SortByUpdatedDescSpec(notes);
        Returned(SortByUpdatedDesc(notes))
    }

    /** addNote: prepends a note stamped `now` under the id the environment
        generated, and returns it. */
    method AddNote(promptId: string, content: string, now: int, id: string) returns (o: Outcome<Note>)
      modifies this
      ensures Inherits(old(All()), promptId) ==> o == Threw(TypeError) && stored == old(stored)
      ensures !Inherits(old(All()), promptId) ==>
                var note := Note(id, promptId, content, now, now);
                && o == Returned(note)
                && stored == Some(old(All())[promptId := [note] + old(NotesFor(All(), promptId))])
                && |NotesFor(All(), promptId)| == |old(NotesFor(All(), promptId))| + 1
                && forall q :: q != promptId ==> NotesFor(All(), q) == old(NotesFor(All(), q))
    {
      var note := Note(id, promptId, content, now, now);
      var all := All();
      if Inherits(all, promptId) {
        return Threw(TypeError);
      }
      var nextArr := [note] + NotesFor(all, promptId);
      all := all[promptId := nextArr];
      stored := Some(all);
      return Returned(note);
    }

    /** updateNote: rewrites the content and the update stamp of the first
        note with the patch's id, in place; when there is none it adds a new
        note with the patch's content under `freshId` instead. */
    method UpdateNote(promptId: string, patch: Note, now: int, freshId: string) returns (o: Outcome<Note>)
      modifies this
      ensures Inherits(old(All()), promptId) ==> o == Threw(TypeError) && stored == old(stored)
      ensures var arr := old(NotesFor(All(), promptId));
              var idx := FindNote(arr, patch.id);
              !Inherits(old(All()), promptId) && idx == -1 ==>
                var note := Note(freshId, promptId, patch.content, now, now);
                && o == Returned(note)
                && stored == Some(old(All())[promptId := [note] + arr])
      ensures var arr := old(NotesFor(All(), promptId));
              var idx := FindNote(arr, patch.id);
              !Inherits(old(All()), promptId) && idx >= 0 ==>
                var note := arr[idx].(content := patch.content, updatedAt := now);
                && o == Returned(note)
                && note.id == patch.id && note.createdAt == arr[idx].createdAt
                && stored == Some(old(All())[promptId := arr[idx := note]])
                && |NotesFor(All(), promptId)| == |arr|
      ensures !Inherits(old(All()), promptId) ==>
                forall q :: q != promptId ==> NotesFor(All(), q) == old(NotesFor(All(), q))
    {
      var all := All();
      if Inherits(all, promptId) {
        return Threw(TypeError);
      }
      var arr := NotesFor(all, promptId);
      var idx := FindNote(arr, patch.id);
      if idx == -1 {
        o := AddNote(promptId, patch.content, now, freshId);
        return;
      }
      var updated := arr[idx].(content := patch.content, updatedAt := now);
      var next := arr[idx := updated];
      all := all[promptId := next];
      stored := Some(all);
      return Returned(updated);
    }

    /** deleteNote: removes every note with that id from the prompt's list;
        the prompt gets an (empty) entry even if it had none. */
    method DeleteNote(promptId: string, noteId: string) returns (o: Outcome<()>)
      modifies this
      ensures Inherits(old(All()), promptId) ==> o == Threw(TypeError) && stored == old(stored)
      ensures !Inherits(old(All()), promptId) ==>
                && o == Returned(())
                && stored == Some(old(All())[promptId := DropNote(old(NotesFor(All(), promptId)), noteId)])
                && forall q :: q != promptId ==> NotesFor(All(), q) == old(NotesFor(All(), q))
    {
      var all := All();
      if Inherits(all, promptId) {
        return Threw(TypeError);
      }
      var arr := NotesFor(all, promptId);
      var next := DropNote(arr, noteId);
      all := all[promptId := next];
      stored := Some(all);
      return Returned(());
    }
  }
}
