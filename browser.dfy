/** The browser's localStorage, seen through JSON: every key holds the text
    that JSON.stringify produced, recorded here as what JSON.parse makes of
    it.  Whether the browser accepts a write (its storage quota) is decided
    by the environment and is a fixed relation of the object. */
module Browser {
  import opened Js

  /** readLocal / safeParse: the decoded item, or the fallback when the key
      is absent or its text does not parse. */
  function ReadCell(cells: map<string, Decoded>, key: string, fallback: Json): Json
  {
    if key in cells && cells[key].Wellformed? then cells[key].value else fallback
  }

  /** Reading after a write of a value gives that value back under its
      key, and every other key reads as before. */
  lemma ReadAfterWrite(cells: map<string, Decoded>, key: string, value: Json, k: string, fallback: Json)
    ensures ReadCell(cells[key := Wellformed(value)], k, fallback) ==
              if k == key then value else ReadCell(cells, k, fallback)
  {
  }

  /** After removeItem the key reads as the fallback, and every other key
      reads as before. */
  lemma ReadAfterRemove(cells: map<string, Decoded>, key: string, k: string, fallback: Json)
    ensures ReadCell(cells - {key}, k, fallback) == if k == key then fallback else ReadCell(cells, k, fallback)
  {
  }

  class LocalStorage {
    /** The stored texts, decoded; a key that is absent holds no item. */
    var cells: map<string, Decoded>

    /** True when setItem(key, text) succeeds on the current contents; when
        false the browser throws a QuotaExceededError and stores nothing. */
    const admits: (map<string, Decoded>, string, Decoded) -> bool

    constructor (initial: map<string, Decoded>, admits: (map<string, Decoded>, string, Decoded) -> bool)
      ensures cells == initial && this.admits == admits
    {
      cells := initial;
      this.admits := admits;
    }

    /** readLocal / safeParse on the current contents. */
    function Read(key: string, fallback: Json): (v: Json)
      reads this
      ensures key in cells && cells[key].Wellformed? ==> v == cells[key].value
      ensures !(key in cells && cells[key].Wellformed?) ==> v == fallback
    {
      ReadCell(cells, key, fallback)
    }

    /** localStorage.setItem(key, JSON.stringify(value)); `text` is what the
        stored text decodes to (Malformed for the string "undefined" that
        stringifying undefined leaves). */
    method SetItem(key: string, text: Decoded) returns (ok: bool)
      modifies this
      ensures ok == admits(old(cells), key, text)
      ensures cells == if ok then old(cells)[key := text] else old(cells)
    {
      ok := admits(cells, key, text);
      if ok {
        cells := cells[key := text];
      }
    }

    /** localStorage.removeItem(key). */
    method RemoveItem(key: string)
      modifies this
      ensures cells == old(cells) - {key}
    {
      cells := cells - {key};
    }
  }
}
