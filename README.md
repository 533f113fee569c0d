# Prompt library storage and import/export, in Dafny

This project models the data core of a browser prompt library. The library
keeps a list of prompt records and a table of notes per prompt in
`localStorage`. It can export the list as a versioned JSON file with summary
statistics. It imports such a file in one of four ways: replace the list,
merge and skip known ids, merge and overwrite known ids, or merge and keep
both copies under a fresh id. Before writing, it saves a backup and restores
it if a later step fails. Prompts also carry metadata: the model that was
used, ISO 8601 creation and update stamps, and a token estimate.

Modules:

- `JsString`: `String.prototype.trim`, UTF-16 length, decimal printing.
- `Js`: JSON values, decoding outcomes, JavaScript faults, property access,
  truthiness, spread and template-literal rendering.
- `Browser`: `localStorage` as a class whose map of decoded items the methods
  update. Whether the browser accepts a write (its quota) is a fixed relation
  `admits` of the object.
- `Storage`: `src/utils/storage.ts`, the prompts table.
- `Sorting`: the stable sort of `Array.prototype.sort`, by an integer rank.
- `NotesStorage`: `src/utils/notesStorage.ts`. The notes table is a class
  whose methods update the stored table.
- `Metadata`: `src/utils/metadata.ts`, covering word counts, token
  estimates, the model-name check, timestamps and the ISO shape check.
- `PromptRecords`: the prompt shape check, the keys a JavaScript `Map` files
  records under, and the insertion-ordered `Map` itself.
- `Stats`: `computeStats`.
- `ExportImport`: export, backup and restore, and `analyzeImportFile`.
- `ApplyImport`: `applyImport`.

The environment becomes parameters:

- the clock reading (`now`);
- `Date.parse` (`dateParse`, with `None` for NaN);
- the ratings map (`ratings`);
- generated note ids;
- the clock-and-random suffix merge-duplicate appends to a copied id
  (`suffix`, one per file position).

Text that `JSON.parse` rejects is `Malformed`. The text `"undefined"` that
`JSON.stringify(undefined)` writes is also `Malformed`, since it does not
parse back.

## Model

| member | source | states |
|---|---|---|
| JsString.TrimStartSpec | src/utils/metadata.ts:67-70 | What trimming the front removes is all whitespace. What remains is a suffix of the input that starts with a non-whitespace character, or is empty. |
| JsString.TrimEndSpec | src/utils/metadata.ts:67-70 | What trimming the end removes is all whitespace. What remains is a prefix of the input that ends with a non-whitespace character, or is empty. |
| JsString.TrimShape | src/utils/metadata.ts:70 | `trim()` returns a contiguous slice of the input with only whitespace around it. That slice is empty or starts and ends with non-whitespace. |
| JsString.TrimEmptyIffAllSpace | src/utils/metadata.ts:67 | `s.trim().length === 0` holds exactly when `s` is empty or all whitespace. |
| JsString.Utf16Length | src/utils/metadata.ts:38 | `length` counts UTF-16 units: at least one per character and at most two. |
| JsString.NatTextValue | src/utils/exportImport.ts:191-199 | The decimal text printed for a number reads back as that number. |
| JsString.NatTextInjective | src/utils/exportImport.ts:191-199 | Distinct version numbers render as distinct texts in the refusal message. |
| Js.Get | src/utils/exportImport.ts:263 | Reading a property of `null` throws a TypeError. Every other value yields its own property or undefined. |
| Js.Spread | src/utils/storage.ts:21 | `[...v]` yields an array's elements, or a string's characters one by one. It throws a TypeError for anything else. |
| Browser.ReadAfterWrite | src/utils/exportImport.ts:146-157 | readLocal after writeLocal of a value gives that value back under the written key and what it gave before under every other key. |
| Browser.ReadAfterRemove | src/utils/exportImport.ts:146-153 | readLocal after removing a key gives the fallback for that key and what it gave before under every other key. |
| Browser.LocalStorage.SetItem | src/utils/exportImport.ts:155-157 | A write that the browser admits stores the text under the key. A refused write changes nothing and reports the refusal. |
| Browser.LocalStorage.RemoveItem | src/utils/storage.ts:32 | Exactly that key is removed. |
| Storage.GetPrompts | src/utils/storage.ts:5-17 | The table reads as `[]` when the item is absent or does not parse. Otherwise it reads as the stored value, array or not. |
| Storage.RemoveId | src/utils/storage.ts:27 | The filter keeps exactly the records without that id, never grows the list, and leaves a list without the id unchanged. |
| Storage.RemoveIdConcat | src/utils/storage.ts:27 | The filter keeps the order of the records it keeps: it distributes over concatenation. |
| Storage.RemoveIdAfterPrepend | src/utils/storage.ts:21-27 | Prepending a record and removing its id gives back a list that did not hold that id. |
| Storage.SavePrompt | src/utils/storage.ts:19-23 | The new table is the prompt followed by the old elements. A stored non-iterable value throws a TypeError and writes nothing. A refused write throws QuotaExceeded and changes nothing. |
| Storage.DeletePrompt | src/utils/storage.ts:25-29 | The new table is the old one without the records carrying the id. A non-array table or a null record throws and writes nothing. A refused write changes nothing. |
| Storage.ClearAll | src/utils/storage.ts:31-33 | Only the prompts item is removed, after which the table reads as `[]`. |
| Storage.SaveThenDelete | src/utils/storage.ts:19-29 | Saving a prompt with a fresh id and then deleting that id, both succeeding, leaves the table reading as before. |
| Sorting.SortBySpec | src/utils/notesStorage.ts:28 | The sort returns a permutation of its input in rank order. |
| Sorting.SortIsStable | src/utils/notesStorage.ts:28 | Elements of equal rank keep their relative order. |
| NotesStorage.SortByUpdatedDescSpec | src/utils/notesStorage.ts:28 | The notes come out newest first, with every note kept and notes with the same stamp in their stored order. |
| NotesStorage.FindNote | src/utils/notesStorage.ts:56 | The result is the first index holding the id, or -1 exactly when no note has it. |
| NotesStorage.DropNote | src/utils/notesStorage.ts:77 | The filter keeps exactly the notes with another id. |
| NotesStorage.DropNoteConcat | src/utils/notesStorage.ts:77 | The filter keeps the order of the notes it keeps. |
| NotesStorage.DropAbsentNote | src/utils/notesStorage.ts:77 | Deleting an id that no note carries changes nothing. |
| NotesStorage.DeleteUndoesAdd | src/utils/notesStorage.ts:31-51 | Adding a note under a fresh id and then deleting it restores the prompt's list. |
| NotesStorage.NotesStore.GetNotes | src/utils/notesStorage.ts:24-29 | Throws a TypeError exactly when the id is not an own entry but names a member of Object.prototype. Otherwise it returns the prompt's notes, newest first, as a permutation of the stored list that keeps equal stamps in order, and a prompt without an entry has none. |
| NotesStorage.NotesStore.AddNote | src/utils/notesStorage.ts:31-51 | For an inherited name it throws a TypeError and writes nothing. Otherwise the new note is stamped `now` for both times and goes in front of the prompt's list, and every other prompt's list is unchanged. |
| NotesStorage.NotesStore.UpdateNote | src/utils/notesStorage.ts:53-72 | For an inherited name it throws a TypeError and writes nothing. Otherwise the first note with the patch's id gets the new content and update stamp in place, keeping its id, creation stamp and position. Without such a note, the patch's content is added as a new note. Other prompts are unchanged. |
| NotesStorage.NotesStore.DeleteNote | src/utils/notesStorage.ts:74-80 | For an inherited name it throws a TypeError and writes nothing. Otherwise the prompt's list loses every note with that id, and other prompts are unchanged. |
| Metadata.WordLen | src/utils/metadata.ts:30 | The length of the longest prefix without whitespace. |
| Metadata.GapLen | src/utils/metadata.ts:30 | The length of the longest whitespace prefix. |
| Metadata.CountWordsIsRuns | src/utils/metadata.ts:26-31 | countWords equals the number of maximal runs of non-whitespace characters, a count made by an independent scan. |
| Metadata.CountWordsZero | src/utils/metadata.ts:26-31 | countWords is 0 exactly for empty or all-whitespace text. |
| Metadata.RunsZeroIffAllSpace | src/utils/metadata.ts:28 | Text has no word exactly when it is all whitespace. |
| Metadata.SplitCountsRuns | src/utils/metadata.ts:30 | Splitting trimmed text at whitespace runs and dropping empty pieces leaves one piece per word. |
| Metadata.CountWordsExample | src/utils/metadata.ts:26-31 | "a b c" has three words. |
| Metadata.ClampNonNegative | src/utils/metadata.ts:22-24 | The result is the larger of the number and 0: never negative, never below the input, and either the input or 0. |
| Metadata.Ceiling | src/utils/metadata.ts:50 | The least integer not below the value. |
| Metadata.EstimateIsDetermined | src/utils/metadata.ts:33-64 | The stated properties of a prose estimate fix min, max and confidence uniquely. |
| Metadata.EstimateTokens | src/utils/metadata.ts:33-64 | For prose, min is floor(3/4 of the word count) and max is ceil(1/4 of the UTF-16 length), raised to min when lower. The confidence is high below 1000, medium up to 5000 and low above. |
| Metadata.EstimateExample | src/utils/metadata.ts:33-64 | Three words in five characters give min 2, max 2, confidence high. |
| Metadata.Digits | src/utils/metadata.ts:4 | A number below 10^w printed in exactly w digits. |
| Metadata.DigitsOfValue | src/utils/metadata.ts:4 | A digit group is the zero-padded rendering of the number it denotes. |
| Metadata.FormatIsoHasShape | src/utils/metadata.ts:4-6 | Every timestamp that toISOString prints for years up to 9999 passes ISO_REGEX. |
| Metadata.ParseFormatIso | src/utils/metadata.ts:4-6 | Reading the digit groups of a printed timestamp gives back its fields. |
| Metadata.FormatParseIso | src/utils/metadata.ts:4 | Every string that ISO_REGEX accepts is the rendering of its own fields. The regex therefore accepts exactly the YYYY-MM-DDTHH:mm:ss.sssZ strings. |
| Metadata.AssertIsoDate | src/utils/metadata.ts:10-20 | A value passes exactly when it has the ISO shape and Date.parse accepts it. Each failure throws its own message naming the field. |
| Metadata.TrackModelMessagesDiffer | src/utils/metadata.ts:66-90 | The empty-name, long-name and date failures of trackModel carry different messages. |
| Metadata.TrackModel | src/utils/metadata.ts:66-90 | An empty or all-whitespace name is refused, and so is a trimmed name over 100 UTF-16 units. Otherwise the metadata holds the trimmed name, both stamps equal to `now` and the prose estimate of the content, and it is well stamped. It throws the date failure exactly when `now` fails the date check. |
| Metadata.UpdateTimestamps | src/utils/metadata.ts:92-108 | A bad creation stamp or a bad `now` throws its date failure. A `now` earlier than the creation throws the ordering error. Otherwise success means only updatedAt changed, to a stamp not before creation. Every failure means the result would not be well stamped. |
| PromptRecords.WithId | src/utils/exportImport.ts:313 | `{ ...p, id }` still passes the shape check, carries the new id and keeps every other property. |
| PromptRecords.KeyAt | src/utils/exportImport.ts:222 | A record that passed the shape check is filed under its string id. |
| PromptRecords.ValuesOfEntries | src/utils/exportImport.ts:330-331 | Taking the values of `records.map(p => [p.id, p])` gives back the records, in order. |
| PromptRecords.FindId | src/utils/exportImport.ts:299 | findIndex gives the first record with the id, or -1 exactly when none has it. |
| PromptRecords.KeyIndex | src/utils/exportImport.ts:222 | The first entry with a key, or -1 exactly when none has it. |
| PromptRecords.LastIndex | src/utils/exportImport.ts:222 | The last pair with a key, or -1 exactly when none has it. |
| PromptRecords.MapSetKeepsMap | src/utils/exportImport.ts:222 | One more `map.set` keeps the Map in step with the pairs written so far. |
| PromptRecords.MapFromPairsIsMap | src/utils/exportImport.ts:222 | `new Map(pairs)` holds each key once, at the position where it first occurs, with the value written last. |
| PromptRecords.MapFromDistinctPairs | src/utils/exportImport.ts:328-333 | Pairs with distinct keys come out of the Map unchanged and in order. |
| PromptRecords.DedupEntryKey | src/utils/exportImport.ts:328-331 | A record that the de-duplication keeps, filed again at its new position, has the Map key it was kept under, or for an object id the identity of the new position. |
| PromptRecords.DedupDistinct | src/utils/exportImport.ts:328-331 | The de-duplicated list files no two records under one Map key, whatever it was built from. |
| PromptRecords.DedupIdsUnique | src/utils/exportImport.ts:328-333 | After the final de-duplication no two records share a string id. |
| Stats.RatedValues | src/utils/exportImport.ts:29-32 | At most one positive value per prompt. |
| Stats.NoRatingsIffNoneRated | src/utils/exportImport.ts:33-39 | The average falls back to 0 exactly when no prompt has a positive rating. |
| Stats.UnratedPromptIgnored | src/utils/exportImport.ts:29-39 | An unrated prompt changes neither the rated values nor the average. |
| Stats.RatedPromptCounted | src/utils/exportImport.ts:29-32 | A rated prompt adds its rating at the end. |
| Stats.AverageWithin | src/utils/exportImport.ts:33-39 | The average of ratings within bounds lies within the same bounds. |
| Stats.CountModelsTallies | src/utils/exportImport.ts:43-47 | The tally loop throws a TypeError exactly when some model is not a string. Otherwise it holds each trimmed non-empty model once, with the number of prompts counted under it. |
| Stats.ObjectEntriesSpec | src/utils/exportImport.ts:48 | Object.entries lists every entry once: array-index names first in ascending order, then the rest in insertion order. |
| Stats.FirstMaxIsFirstMaximum | src/utils/exportImport.ts:48-55 | The strict `>` scan picks the first entry with the largest count, and nothing when every count is 0. |
| Stats.MostUsedModelSpec | src/utils/exportImport.ts:43-61 | mostUsedModel is null exactly when no prompt names a model. Otherwise it is a model with the largest tally. |
| Stats.TalliesBoundedByMax | src/utils/exportImport.ts:48-55 | No model is counted more often than the count the max scan ends with. |
| Stats.PickedIsTallied | src/utils/exportImport.ts:48-55 | The model the max scan picks is counted, and the count it ends with is that model's tally. |
| Stats.ComputeStats | src/utils/exportImport.ts:26-62 | The stats hold the prompt count, the mean of the positive ratings and the first most-used model. They throw exactly when a model is not a string. |
| Stats.CollectRatings | src/utils/exportImport.ts:29-32 | The first loop collects the positive ratings in prompt order. |
| Stats.TallyModels | src/utils/exportImport.ts:43-47 | The second loop builds the tallies or throws like the specification. |
| Stats.PickMostUsed | src/utils/exportImport.ts:48-55 | The third loop finds the first maximum. |
| ExportImport.BuildExportPayload | src/utils/exportImport.ts:75-89 | The export carries version 1, the stamp and the stored prompts unchanged and in order, with their stats. A non-array table throws a TypeError. A record failing the shape check refuses with "Storage contains invalid prompt records". |
| ExportImport.BackupKeyIsNotPromptsKey | src/utils/exportImport.ts:143-144 | A backup key never names the prompts item. |
| ExportImport.BackupPrompts | src/utils/exportImport.ts:159-166 | `{ createdAt, prompts }` of the current table is stored under the prefix plus the stamp, and that key is returned. A refused write throws and changes nothing. |
| ExportImport.RestoreBackup | src/utils/exportImport.ts:168-175 | A truthy backup has its `prompts` written back to the table. A falsy or missing backup changes nothing. A refused write changes nothing. |
| ExportImport.RestoreReadsBackup | src/utils/exportImport.ts:159-175 | Restoring a backup just taken puts back exactly the prompts it saved. |
| ExportImport.ReasonText | src/utils/exportImport.ts:182-211 | Each refusal has its message. "Unsupported version" is followed by the template rendering of the version found. |
| ExportImport.Admit | src/utils/exportImport.ts:182-211 | An admitted file is a parsed object with version 1 and a non-empty array of prompts, each passing the shape check. |
| ExportImport.AdmitOrder | src/utils/exportImport.ts:182-211 | Each refusal happens exactly when every earlier check passed and its own check failed: invalid JSON, invalid payload, unsupported version, no prompts, invalid prompts. |
| ExportImport.ArrayPayloadIsUnsupported | src/utils/exportImport.ts:188-199 | A JSON array passes the object check and is refused as "Unsupported version undefined". |
| ExportImport.NonArrayPromptsAreNone | src/utils/exportImport.ts:200-203 | A `prompts` property that is not an array counts as no prompts. |
| ExportImport.ExportIsAdmitted | src/utils/exportImport.ts:75-89 | An exported snapshot passes the analysis checks with its prompts as they were, unless the library was empty. |
| ExportImport.DupIdsCount | src/utils/exportImport.ts:213-219 | Every id occurrence is either the first of its id or listed once in duplicateIds. |
| ExportImport.NoDupIdsIffDistinct | src/utils/exportImport.ts:213-219 | hasInternalDuplicates is false exactly when all incoming ids differ. |
| ExportImport.LastWithId | src/utils/exportImport.ts:222 | The last record with the id, or -1 exactly when none has it. |
| ExportImport.LookupIsLast | src/utils/exportImport.ts:221-226 | `existingMap.get(id)` finds a record exactly when one carries the id, and it is the last such record. |
| ExportImport.ConflictFromMap | src/utils/exportImport.ts:223-233 | The conflict recorded through the Map equals the one built from the last stored record with the id. |
| ExportImport.NoConflictsIffFresh | src/utils/exportImport.ts:223-233 | No conflicts are reported exactly when no stored record carries an incoming id. |
| ExportImport.NoConflictsIffUnheld | src/utils/exportImport.ts:221-233 | No conflicts exactly when no incoming id has a last stored record with that id, the record the Map lookup returns. |
| ExportImport.ConflictsAreStored | src/utils/exportImport.ts:223-233 | There is at most one conflict per incoming record. Each names an incoming record's id and title, and a stored record with that id and its title. |
| ExportImport.AnalyzeImportFile | src/utils/exportImport.ts:177-246 | A refused file yields its reason. An admitted file over a table that is not an array without nulls throws. Otherwise the report holds the count, the duplicate ids and the conflicts, and nothing is written. |
| ExportImport.CollectDupIds | src/utils/exportImport.ts:213-219 | The first analysis loop returns each id met again, once per repetition, in file order. |
| ExportImport.CollectConflicts | src/utils/exportImport.ts:221-233 | The second analysis loop returns, in file order, one conflict for each incoming record whose id the stored table holds. |
| ApplyImport.MapKeysAreKeySet | src/utils/exportImport.ts:278 | A key is in `new Map(existing.map(p => [p.id, p]))` exactly when some stored record is filed under it. |
| ApplyImport.MergedCounts | src/utils/exportImport.ts:281-320 | The Map's keys stay those of `next`. Outside replace, each incoming record is counted exactly once. Replace counts only new ids. |
| ApplyImport.AppendModesKeepExisting | src/utils/exportImport.ts:281-320 | merge-skip and merge-duplicate only append: the stored records stay in front, untouched. |
| ApplyImport.OverwriteKeepsPositions | src/utils/exportImport.ts:297-306 | merge-overwrite never moves a record. Each stored position holds its record or an incoming record with the same id, and the array grows only by new ids. |
| ApplyImport.OverwriteTakesFirstPosition | src/utils/exportImport.ts:297-306 | An incoming record with a known id replaces the first record with that id. |
| ApplyImport.MergedKeepsDistinct | src/utils/exportImport.ts:281-306 | Outside merge-duplicate, a table without repeated ids stays without them through the loop. |
| ApplyImport.DedupKeepsMergedNext | src/utils/exportImport.ts:328-333 | For merge-skip and merge-overwrite on a table without repeated ids, the final de-duplication drops nothing. |
| ApplyImport.MergeSkipKeepsStore | src/utils/exportImport.ts:294-296 | merge-skip on a table without repeated ids writes the stored records first, untouched. |
| ApplyImport.DuplicateAppendsAll | src/utils/exportImport.ts:281-320 | merge-duplicate appends one record per incoming record after the stored ones, in file order: the record itself when its id is not yet a key of the Map at that point of the loop, otherwise its copy under `id-suffix` (Appended). |
| ApplyImport.DupKeepsDistinct | src/utils/exportImport.ts:307-318 | When no generated id is already a key of the Map, merge-duplicate keeps a table without repeated ids free of them. |
| ApplyImport.MergeDuplicateKeepsStore | src/utils/exportImport.ts:307-333 | With fresh suffixes, on a table without repeated ids, merge-duplicate writes the stored records first and untouched, then for each incoming record the record itself when its id is new at that point of the loop, otherwise its renamed copy. |
| ApplyImport.StepSeenGrows | src/utils/exportImport.ts:282-318 | One loop step never forgets a key of the Map and leaves the incoming record's id among them. |
| ApplyImport.IncomingSeen | src/utils/exportImport.ts:281-320 | After the loop every incoming id is a key of the Map. |
| ApplyImport.SkipAllHeld | src/utils/exportImport.ts:282-296 | merge-skip over a table that already holds every incoming id skips them all: the Map and the array stay as they were. |
| ApplyImport.SkipTwice | src/utils/exportImport.ts:282-332 | Importing the same file twice under merge-skip writes the same table the second time as the first, whatever the stored table held. |
| ApplyImport.ScalarKept | src/utils/exportImport.ts:328-331 | A string id that a record of `next` carries is still carried by a record after the final de-duplication. |
| ApplyImport.FinalIdsUnique | src/utils/exportImport.ts:328-333 | Outside replace, no two written records share a string id. |
| ApplyImport.MergeIncoming | src/utils/exportImport.ts:277-320 | The loop over the incoming records ends in the state the merge specification gives. |
| ApplyImport.Rollback | src/utils/exportImport.ts:339-341 | Restoring the backup leaves the table reading as when it was taken, whether or not the write is admitted. No other item changes. |
| ApplyImport.ImportWithRollback | src/utils/exportImport.ts:277-346 | The result is applied exactly when the table is an array without nulls and the write is admitted. Then the table holds the merged prompts and the counters are reported. Otherwise the table reads as before and one error is reported: a table that is not an array without nulls gives TypeError with all counters 0, and a refused write gives QuotaExceeded with the counters the loop reached. Only the prompts item changes. |
| ApplyImport.ApplyImport | src/utils/exportImport.ts:248-347 | A null payload throws. A wrong version or invalid prompt data is refused before anything is written. A refused backup throws. Otherwise a backup is kept under the stamp and the import is applied with the stated counters, or rolled back with TypeError and zero counters for a bad table, or with QuotaExceeded and the loop's counters for a refused write. |
| ApplyImport.ExportThenReplace | src/utils/exportImport.ts:75-89 | Exporting the library and importing that file under replace leaves the table reading as before. |

## Left out

- exportPromptsToFile (`src/utils/exportImport.ts:91-108`): Blob, object URLs and the DOM are I/O.
- formatHuman (`src/utils/metadata.ts:111-125`): locale-dependent date formatting.
- The clocks (`isoNow`, `Date.now`), `Math.random` and `crypto.randomUUID` become parameters; the `typeof window` guards and `File.text()` are left out.
- getAllRatingsMap is not part of this model: computeStats takes the ratings map as a parameter.
- Stats.ComputeStats: averageRating is the exact mean. The rounding by `toFixed(2)` and `Number` is floating-point formatting and is not modelled.
- Metadata.EstimateTokens: models `estimateTokens(text, false)` only, the call that trackModel makes. The `isCode` factor 1.3 is floating-point scaling. The `typeof text` check cannot fail on a Dafny string.
- Metadata.AssertIsoDate: calendar validity (month 13, February 30) is `Date.parse`'s job and is a parameter.
- Metadata.UpdateTimestamps: the "metadata must be provided" refusal cannot arise, because a MetadataObject value is always present.
- ExportImport.ReasonText: a fractional version, or an integer version beyond 2^53, is printed by JavaScript's number-to-string algorithm. That algorithm is not modelled, so the text is None there.
- Js.Fault: engine and browser error messages are not modelled. TypeError and QuotaExceeded stand for them, and "Import failed unexpectedly" (a thrown non-Error) cannot arise.
- NotesStorage.NotesStore: the table is kept decoded, and a refused write of the notes item (quota) is not modelled.
- Stats.CountModels: the tally dictionary is a plain object. Model names that collide with `Object.prototype` properties (`constructor`, `__proto__`) are not modelled.
- ApplyImport.Merge: the Map of the loop is modelled by its key set, since its values are never read.
- ApplyImport.MergeDuplicateKeepsStore: requires that no generated `id-suffix` is already a key of the Map (FreshSuffixes). The model does not say how the clock and `Math.random` make the suffix, so this is a precondition. When a suffix collides, `FinalPrompts` still gives what the source writes: the record written last under that id, at the position where the id first occurs.
- JSON objects are maps, so the order of properties within a record is not recorded.
- Concurrency between tabs and the UI components are outside the core.

Behaviour of the source that the model reproduces and the lemmas make visible:

- Replace writes the file verbatim, so duplicate ids inside the file survive (FinalIdsUnique is stated outside replace only).
- When the table already holds two records with one id, merge-overwrite replaces the first. The final de-duplication then keeps the last, so the overwrite is lost.
- A failed apply reports the counters it had reached, not zeros: a refused write comes after the loop, so the loop's counters are reported (under replace, before they are reset).
- When the stored table already holds one id twice, merge-skip and merge-duplicate also change stored records. The final de-duplication keeps the record written last at the id's first position: stored `[x:a, x:b]` under merge-skip is written as `[x:b, ...]`, and `x:a` is lost. This is why MergeSkipKeepsStore and MergeDuplicateKeepsStore require distinct stored ids.
- Exporting an empty library gives a file that the analysis refuses with "No prompts to import".
- Rolling back over an item that was absent or did not parse writes `[]`. That reads the same, but the text differs.
