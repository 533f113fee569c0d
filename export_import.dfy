/** The export side of the import/export engine (src/utils/exportImport.ts)
    and the read-only analysis of an uploaded file: the export snapshot, the
    backup kept before an import, and the checks and reports of
    analyzeImportFile. */
module ExportImport {
  import opened Js
  import opened Browser
  import opened PromptRecords
  import opened Stats
  import Storage

  const ExportVersion: int := 1

  /** The engine's PROMPTS_KEY names the same item as the prompts table. */
  const PromptsKey: string := Storage.StorageKey

  const BackupPrefix: string := "prompt-library.backup:"

  // ---- Export ----

  datatype ExportFile = ExportFile(version: int, exportedAt: string, stats: ExportStats, prompts: seq<Json>)

  function StatsJson(s: ExportStats): Json
  {
    JObject(map[
      "totalPrompts" := JNumber(s.totalPrompts as real),
      "averageRating" := JNumber(s.averageRating),
      "mostUsedModel" := match s.mostUsedModel case Some(m) => JString(m) case None => JNull])
  }

  /** The value JSON.parse gives back for the text JSON.stringify writes for
      an export file. */
  function ExportJson(f: ExportFile): Json
  {
    JObject(map[
      "version" := JNumber(f.version as real),
      "exportedAt" := JString(f.exportedAt),
      "stats" := StatsJson(f.stats),
      "prompts" := JArray(f.prompts)])
  }

  /** buildExportPayload: the stored prompts, unchanged and in order, with
      their statistics, stamped `now`.  A table that is not an array has no
      `every` method and throws a TypeError; a record that fails the shape
      check refuses the export. */
  method BuildExportPayload(ls: LocalStorage, now: string, ratings: map<string, Json>)
    returns (o: Outcome<ExportFile>)
    ensures !Storage.GetPrompts(ls).JArray? ==> o == Threw(TypeError)
    ensures Storage.GetPrompts(ls).JArray? && !AllShaped(Storage.GetPrompts(ls).elems) ==>
              o == Threw(Error("Storage contains invalid prompt records"))
    ensures var stored := Storage.GetPrompts(ls);
            stored.JArray? && AllShaped(stored.elems) ==>
              && (o.Returned? <==> CountModels(stored.elems).Returned?)
              && (o.Threw? ==> o.fault == TypeError)
              && (o.Returned? ==>
                    && o.value.version == ExportVersion
                    && o.value.exportedAt == now
                    && o.value.prompts == stored.elems
                    && o.value.stats.totalPrompts == |stored.elems|
                    && o.value.stats.averageRating == Average(RatedValues(stored.elems, ratings))
                    && o.value.stats.mostUsedModel == FirstMax(ObjectEntries(CountModels(stored.elems).value)).0)
  {
    var prompts := Storage.GetPrompts(ls);
    if !prompts.JArray? {
      return Threw(TypeError);
    }
    if !AllShaped(prompts.elems) {
      return Threw(Error("Storage contains invalid prompt records"));
    }
    var stats := ComputeStats(prompts.elems, ratings);
    match stats
    case Threw(f) =>
      return Threw(f);
    case Returned(s) =>
      return Returned(ExportFile(ExportVersion, now, s, prompts.elems));
  }

  // ---- Backup and restore ----

  function BackupKey(now: string): string
  {
    BackupPrefix + now
  }

  /** `{ createdAt: now, prompts }`. */
  function BackupRecord(now: string, prompts: Json): Json
  {
    JObject(map["createdAt" := JString(now), "prompts" := prompts])
  }

  /** A backup never lands on the prompts table itself. */
  lemma BackupKeyIsNotPromptsKey(now: string)
    ensures BackupKey(now) != PromptsKey
  {
    assert BackupKey(now)[15] == 'b';
    assert PromptsKey[15] == 'p';
  }

  /** backupPrompts: stores the current table (or [] when it does not read)
      under the prefix followed by `now`, and returns that key. */
  method BackupPrompts(ls: LocalStorage, now: string) returns (o: Outcome<string>)
    modifies ls
    ensures var text := Wellformed(BackupRecord(now, old(Storage.GetPrompts(ls))));
            && (o.Returned? <==> ls.admits(old(ls.cells), BackupKey(now), text))
            && (o.Returned? ==> o.value == BackupKey(now) && ls.cells == old(ls.cells)[BackupKey(now) := text])
            && (o.Threw? ==> o.fault == QuotaExceeded && ls.cells == old(ls.cells))
  {
    var prompts := ls.Read(PromptsKey, JArray([]));
    var payload := BackupRecord(now, prompts);
    var key := BackupPrefix + now;
    var ok := ls.SetItem(key, Wellformed(payload));
    if !ok {
      return Threw(QuotaExceeded);
    }
    return Returned(key);
  }

  /** What writeLocal(PROMPTS_KEY, data.prompts) stores: stringifying an
      absent property leaves the text "undefined", which does not parse. */
  function RestoredText(data: Json): Decoded
  {
    match Field(data, "prompts")
    case Some(p) => Wellformed(p)
    case None => Malformed
  }

  /** restoreBackup: when the backup reads as a truthy value, writes its
      `prompts` back to the table; otherwise does nothing. */
  method RestoreBackup(ls: LocalStorage, key: string) returns (o: Outcome<()>)
    modifies ls
    ensures var data := old(ls.Read(key, JNull));
            !Truthy(data) ==> o == Returned(()) && ls.cells == old(ls.cells)
    ensures var data := old(ls.Read(key, JNull));
            Truthy(data) ==>
              && (o.Returned? <==> ls.admits(old(ls.cells), PromptsKey, RestoredText(data)))
              && (o.Threw? ==> o.fault == QuotaExceeded)
              && ls.cells == if o.Returned? then old(ls.cells)[PromptsKey := RestoredText(data)] else old(ls.cells)
  {
    var data := ls.Read(key, JNull);
    if !Truthy(data) {
      return Returned(());
    }
    var ok := ls.SetItem(PromptsKey, RestoredText(data));
    if !ok {
      return Threw(QuotaExceeded);
    }
    return Returned(());
  }

  /** Restoring a backup written a moment ago puts back a table that reads
      as the one that was backed up. */
  lemma RestoreReadsBackup(cells: map<string, Decoded>, now: string, prompts: Json)
    requires BackupKey(now) in cells && cells[BackupKey(now)] == Wellformed(BackupRecord(now, prompts))
    ensures Truthy(BackupRecord(now, prompts))
    ensures RestoredText(BackupRecord(now, prompts)) == Wellformed(prompts)
  {
  }

  // ---- Analysis ----

  /** Why an uploaded file is refused, in the order the checks are made. */
  datatype Reason =
    | InvalidJson
    | InvalidPayload
    | UnsupportedVersion(version: Option<Json>)
    | NoPrompts
    | InvalidPrompts

  /** The reason string shown to the user.  A version whose template-literal
      rendering is not modelled (a fractional or huge number) gives None. */
  function ReasonText(r: Reason): (t: Option<string>)
    ensures r.UnsupportedVersion? && TemplateText(r.version).Some? ==>
              t == Some("Unsupported version " + TemplateText(r.version).value)
    ensures !r.UnsupportedVersion? ==> t.Some?
  {
    match r
    case InvalidJson => Some("Invalid JSON")
    case InvalidPayload => Some("Invalid payload")
    case UnsupportedVersion(v) =>
      (match TemplateText(v)
       case Some(text) => Some("Unsupported version " + text)
       case None => None)
    case NoPrompts => Some("No prompts to import")
    case InvalidPrompts => Some("One or more prompts are invalid")
  }

  /** The outcome of the checks that look only at the file. */
  datatype Gate = Rejected(reason: Reason) | Admitted(data: Json, prompts: seq<Json>)

  /** `Array.isArray(data.prompts) ? data.prompts : []`. */
  function PromptsOf(data: Json): seq<Json>
  {
    match Field(data, "prompts")
    case Some(JArray(a)) => a
    case _ => []
  }

  /** The checks of analyzeImportFile that come before the store is read,
      each returning the first failure. */
  function Admit(file: Decoded): (g: Gate)
    ensures g.Admitted? ==>
              && file == Wellformed(g.data)
              && IsObjectLike(g.data)
              && Field(g.data, "version") == Some(JNumber(ExportVersion as real))
              && g.prompts == PromptsOf(g.data) && g.prompts != []
              && AllShaped(g.prompts)
  {
    match file
    case Malformed => Rejected(InvalidJson)
    case Wellformed(data) =>
      if !Truthy(data) || !IsObjectLike(data) then Rejected(InvalidPayload)
      else if Field(data, "version") != Some(JNumber(ExportVersion as real)) then
        Rejected(UnsupportedVersion(Field(data, "version")))
      else
        var prompts := PromptsOf(data);
        if prompts == [] then Rejected(NoPrompts)
        else if !AllShaped(prompts) then Rejected(InvalidPrompts)
        else Admitted(data, prompts)
  }

  /** The checks fail in a fixed order: a file is refused for a reason only
      when it passed every earlier check. */
  lemma AdmitOrder(file: Decoded)
    ensures Admit(file) == Rejected(InvalidJson) <==> file.Malformed?
    ensures Admit(file) == Rejected(InvalidPayload) <==>
              file.Wellformed? && !IsObjectLike(file.value)
    ensures Admit(file).Rejected? && Admit(file).reason.UnsupportedVersion? <==>
              file.Wellformed? && IsObjectLike(file.value)
              && Field(file.value, "version") != Some(JNumber(ExportVersion as real))
    ensures Admit(file) == Rejected(NoPrompts) <==>
              file.Wellformed? && IsObjectLike(file.value)
              && Field(file.value, "version") == Some(JNumber(ExportVersion as real))
              && PromptsOf(file.value) == []
    ensures Admit(file) == Rejected(InvalidPrompts) <==>
              file.Wellformed? && IsObjectLike(file.value)
              && Field(file.value, "version") == Some(JNumber(ExportVersion as real))
              && PromptsOf(file.value) != [] && !AllShaped(PromptsOf(file.value))
  {
  }

  /** Arrays pass the object check, have no `version` and are refused as
      "Unsupported version undefined". */
  lemma ArrayPayloadIsUnsupported(a: seq<Json>)
    ensures Admit(Wellformed(JArray(a))) == Rejected(UnsupportedVersion(None))
    ensures ReasonText(Admit(Wellformed(JArray(a))).reason) == Some("Unsupported version undefined")
  {
    assert TemplateText(None) == Some("undefined");
    assert "Unsupported version " + "undefined" == "Unsupported version undefined";
  }

  /** A `prompts` property that is not an array counts as no prompts. */
  lemma NonArrayPromptsAreNone(fields: map<string, Json>)
    requires "version" in fields && fields["version"] == JNumber(1.0)
    requires "prompts" in fields ==> !fields["prompts"].JArray?
    ensures Admit(Wellformed(JObject(fields))) == Rejected(NoPrompts)
  {
  }

  /** An exported snapshot passes the checks with its prompts as they were,
      unless the library was empty. */
  lemma ExportIsAdmitted(f: ExportFile)
    requires f.version == ExportVersion && AllShaped(f.prompts)
    ensures f.prompts != [] ==> Admit(Wellformed(ExportJson(f))) == Admitted(ExportJson(f), f.prompts)
    ensures f.prompts == [] ==> Admit(Wellformed(ExportJson(f))) == Rejected(NoPrompts)
  {
    var j := ExportJson(f);
    assert Field(j, "version") == Some(JNumber(1 as real));
    assert Field(j, "prompts") == Some(JArray(f.prompts));
  }

  /** The ids of the records, in order. */
  function Ids(prompts: seq<Json>): (ids: seq<string>)
    requires AllShaped(prompts)
    ensures |ids| == |prompts|
    ensures forall i :: 0 <= i < |prompts| ==> ids[i] == IdOf(prompts[i])
  {
    seq(|prompts|, i requires 0 <= i < |prompts| => IdOf(prompts[i]))
  }

  function IdSet(prompts: seq<Json>): (s: set<string>)
    requires AllShaped(prompts)
    ensures forall id :: id in s <==> exists i :: 0 <= i < |prompts| && IdOf(prompts[i]) == id
  {
    set i | 0 <= i < |prompts| :: IdOf(prompts[i])
  }

  /** dupIds after the first loop: the id of every record whose id an
      earlier record already had. */
  function DupIds(prompts: seq<Json>): seq<string>
    requires AllShaped(prompts)
  {
    if prompts == [] then []
    else
      var init := prompts[..|prompts| - 1];
      var last := prompts[|prompts| - 1];
      assert AllShaped(init) by {
        forall i | 0 <= i < |init| ensures IsPromptShape(init[i]) {
          assert init[i] == prompts[i];
        }
      }
      DupIds(init) + (if IdOf(last) in IdSet(init) then [IdOf(last)] else [])
  }

  lemma PrefixShaped(prompts: seq<Json>, i: nat)
    requires AllShaped(prompts) && i <= |prompts|
    ensures AllShaped(prompts[..i])
  {
    assert forall j :: 0 <= j < i ==> prompts[..i][j] == prompts[j];
  }

  lemma IdSetSnoc(prompts: seq<Json>, i: nat)
    requires AllShaped(prompts) && i < |prompts|
    ensures AllShaped(prompts[..i]) && AllShaped(prompts[..i + 1])
    ensures IdSet(prompts[..i + 1]) == IdSet(prompts[..i]) + {IdOf(prompts[i])}
  {
    PrefixShaped(prompts, i);
    PrefixShaped(prompts, i + 1);
    var init := prompts[..i];
    var ps := prompts[..i + 1];
    forall x ensures x in IdSet(ps) <==> x in IdSet(init) + {IdOf(prompts[i])} {
      if x in IdSet(ps) {
        var k :| 0 <= k < |ps| && IdOf(ps[k]) == x;
        if k < i {
          assert init[k] == ps[k];
        }
      }
      if x in IdSet(init) {
        var k :| 0 <= k < |init| && IdOf(init[k]) == x;
        assert ps[k] == init[k];
      }
      if x == IdOf(prompts[i]) {
        assert ps[i] == prompts[i];
      }
    }
  }

  lemma DupIdsStep(prompts: seq<Json>, i: nat)
    requires AllShaped(prompts) && i < |prompts|
    ensures AllShaped(prompts[..i]) && AllShaped(prompts[..i + 1])
    ensures DupIds(prompts[..i + 1]) ==
              DupIds(prompts[..i]) + (if IdOf(prompts[i]) in IdSet(prompts[..i]) then [IdOf(prompts[i])] else [])
  {
    PrefixShaped(prompts, i);
    PrefixShaped(prompts, i + 1);
    assert prompts[..i + 1][..i] == prompts[..i];
  }

  /** An id the file holds k times is reported k - 1 times: the reported
      ids together with one copy of each distinct id are exactly the ids of
      the file. */
  lemma {:induction false} DupIdsCount(prompts: seq<Json>)
    requires AllShaped(prompts)
    ensures multiset(DupIds(prompts)) + multiset(IdSet(prompts)) == multiset(Ids(prompts))
    decreases |prompts|
  {
    if prompts != [] {
      var n := |prompts| - 1;
      var init := prompts[..n];
      var id := IdOf(prompts[n]);
      PrefixShaped(prompts, n);
      DupIdsCount(init);
      assert Ids(prompts) == Ids(init) + [id];
      IdSetSnoc(prompts, n);
      DupIdsStep(prompts, n);
      assert prompts[..n + 1] == prompts;
      CountStep(DupIds(init), IdSet(init), Ids(init), id);
    }
  }

  /** One more id keeps "reported ids plus one copy of each distinct id"
      equal to all ids. */
  lemma CountStep(dups: seq<string>, distinct: set<string>, ids: seq<string>, id: string)
    requires multiset(dups) + multiset(distinct) == multiset(ids)
    ensures multiset(dups + (if id in distinct then [id] else [])) + multiset(distinct + {id})
            == multiset(ids + [id])
  {
    if id in distinct {
      assert distinct + {id} == distinct;
    } else {
      assert multiset(distinct + {id}) == multiset(distinct) + multiset{id};
    }
  }

  /** hasInternalDuplicates holds exactly when two records share an id. */
  lemma {:induction false} NoDupIdsIffDistinct(prompts: seq<Json>)
    requires AllShaped(prompts)
    ensures DupIds(prompts) == [] <==>
              forall i, j :: 0 <= i < j < |prompts| ==> IdOf(prompts[i]) != IdOf(prompts[j])
    decreases |prompts|
  {
    if prompts != [] {
      var n := |prompts| - 1;
      var init := prompts[..n];
      PrefixShaped(prompts, n);
      NoDupIdsIffDistinct(init);
      assert forall i :: 0 <= i < n ==> init[i] == prompts[i];
      if DupIds(prompts) == [] {
        forall i, j | 0 <= i < j < |prompts| ensures IdOf(prompts[i]) != IdOf(prompts[j]) {
          if j == n {
            assert IdOf(init[i]) in IdSet(init);
          }
        }
      }
    }
  }

  /** Last position of a record with that id, or -1. */
  function LastWithId(records: seq<Json>, id: string): (j: int)
    ensures -1 <= j < |records|
    ensures j == -1 <==> forall i :: 0 <= i < |records| ==> !IdIs(records[i], id)
    ensures j >= 0 ==> IdIs(records[j], id) && forall i :: j < i < |records| ==> !IdIs(records[i], id)
  {
    if records == [] then -1
    else if IdIs(records[|records| - 1], id) then |records| - 1
    else LastWithId(records[..|records| - 1], id)
  }

  /** A record is filed under the key of a string id exactly when it carries
      that id. */
  lemma KeyIsId(p: Json, pos: nat, id: string)
    ensures KeyAt(p, pos) == Scalar(JString(id)) <==> IdIs(p, id)
  {
  }

  /** `existingMap.get(id)`: the last stored record with that id. */
  lemma LookupIsLast(records: seq<Json>, id: string)
    ensures var k := Scalar(JString(id));
            var m := MapFromPairs(Entries(records));
            var j := LastWithId(records, id);
            && (KeyIndex(m, k) >= 0 <==> j >= 0)
            && (j >= 0 ==> m[KeyIndex(m, k)].1 == records[j])
  {
    var k := Scalar(JString(id));
    var ps := Entries(records);
    var m := MapFromPairs(ps);
    var j := LastWithId(records, id);
    MapFromPairsIsMap(ps);
    forall i | 0 <= i < |ps| ensures ps[i].0 == k <==> IdIs(records[i], id) {
      KeyIsId(records[i], i, id);
    }
    var l := LastIndex(ps, k);
    assert l == j;
    if KeyIndex(m, k) >= 0 {
      assert m[KeyIndex(m, k)] == ps[l];
    }
  }

  /** The conflict the second loop records for `p`, read through the Map,
      is the one the last stored record with its id gives. */
  lemma ConflictFromMap(existing: seq<Json>, m: seq<(Key, Json)>, p: Json)
    requires IsPromptShape(p) && m == MapFromPairs(Entries(existing))
    ensures var e := KeyIndex(m, Scalar(JString(IdOf(p))));
            var j := LastWithId(existing, IdOf(p));
            && (e >= 0 && Truthy(m[e].1) <==> j >= 0)
            && (j >= 0 ==> Conflict(IdOf(p), Field(m[e].1, "title"), TitleOf(p))
                             == Conflict(IdOf(p), Field(existing[j], "title"), TitleOf(p)))
  {
    LookupIsLast(existing, IdOf(p));
  }

  datatype Conflict = Conflict(id: string, existingTitle: Option<Json>, incomingTitle: string)

  function TitleOf(p: Json): string
    requires IsPromptShape(p)
  {
    p.fields["title"].s
  }

  /** One conflict per incoming record, repeats included, whose id some
      stored record has; it carries the title of the last such record. */
  function ConflictsOf(prompts: seq<Json>, existing: seq<Json>): seq<Conflict>
    requires AllShaped(prompts)
  {
    if prompts == [] then []
    else
      var n := |prompts| - 1;
      PrefixShaped(prompts, n);
      var p := prompts[n];
      var j := LastWithId(existing, IdOf(p));
      ConflictsOf(prompts[..n], existing)
        + (if j >= 0 then [Conflict(IdOf(p), Field(existing[j], "title"), TitleOf(p))] else [])
  }

  lemma ConflictsStep(prompts: seq<Json>, existing: seq<Json>, i: nat)
    requires AllShaped(prompts) && i < |prompts|
    ensures AllShaped(prompts[..i]) && AllShaped(prompts[..i + 1])
    ensures var p := prompts[i];
            var j := LastWithId(existing, IdOf(p));
            ConflictsOf(prompts[..i + 1], existing) ==
              ConflictsOf(prompts[..i], existing)
                + (if j >= 0 then [Conflict(IdOf(p), Field(existing[j], "title"), TitleOf(p))] else [])
  {
    PrefixShaped(prompts, i);
    PrefixShaped(prompts, i + 1);
    assert prompts[..i + 1][..i] == prompts[..i];
  }

  /** No conflicts exactly when no stored record has an incoming id. */
  lemma NoConflictsIffFresh(prompts: seq<Json>, existing: seq<Json>)
    requires AllShaped(prompts)
    ensures ConflictsOf(prompts, existing) == [] <==>
              forall i, j :: 0 <= i < |prompts| && 0 <= j < |existing| ==> !IdIs(existing[j], IdOf(prompts[i]))
  {
    NoConflictsIffUnheld(prompts, existing);
    forall i | 0 <= i < |prompts|
      ensures LastWithId(existing, IdOf(prompts[i])) == -1 <==>
                forall j :: 0 <= j < |existing| ==> !IdIs(existing[j], IdOf(prompts[i]))
    {
    }
  }

  lemma {:induction false} NoConflictsIffUnheld(prompts: seq<Json>, existing: seq<Json>)
    requires AllShaped(prompts)
    ensures ConflictsOf(prompts, existing) == [] <==>
              forall i :: 0 <= i < |prompts| ==> LastWithId(existing, IdOf(prompts[i])) == -1
    decreases |prompts|
  {
    if prompts != [] {
      var n := |prompts| - 1;
      PrefixShaped(prompts, n);
      NoConflictsIffUnheld(prompts[..n], existing);
      assert forall i :: 0 <= i < n ==> prompts[..n][i] == prompts[i];
    }
  }

  /** Every conflict names an incoming id held by a stored record and the
      titles of both. */
  lemma {:induction false} ConflictsAreStored(prompts: seq<Json>, existing: seq<Json>)
    requires AllShaped(prompts)
    ensures var cs := ConflictsOf(prompts, existing);
            && |cs| <= |prompts|
            && (forall c :: c in cs ==>
                  exists j :: 0 <= j < |existing| && IdIs(existing[j], c.id) && c.existingTitle == Field(existing[j], "title"))
            && (forall c :: c in cs ==>
                  exists i :: 0 <= i < |prompts| && IdOf(prompts[i]) == c.id && c.incomingTitle == TitleOf(prompts[i]))
    decreases |prompts|
  {
    if prompts != [] {
      var n := |prompts| - 1;
      PrefixShaped(prompts, n);
      ConflictsAreStored(prompts[..n], existing);
      var init := ConflictsOf(prompts[..n], existing);
      forall c | c in init
        ensures exists i :: 0 <= i < |prompts| && IdOf(prompts[i]) == c.id && c.incomingTitle == TitleOf(prompts[i])
      {
        var i :| 0 <= i < n && IdOf(prompts[..n][i]) == c.id && c.incomingTitle == TitleOf(prompts[..n][i]);
        assert prompts[..n][i] == prompts[i];
      }
    }
  }

  datatype Analysis =
    | Invalid(reason: Reason)
    | Valid(version: int, importedCount: nat, hasInternalDuplicates: bool,
            duplicateIds: seq<string>, conflicts: seq<Conflict>, payload: Json)

  /** analyzeImportFile on the decoded file (Malformed when JSON.parse
      throws).  It writes nothing.  The refusals look only at the file; a
      store that is not an array without nulls makes `existing.map` throw. */
  method AnalyzeImportFile(ls: LocalStorage, file: Decoded) returns (o: Outcome<Analysis>)
    ensures Admit(file).Rejected? ==> o == Returned(Invalid(Admit(file).reason))
    ensures var stored := Storage.GetPrompts(ls);
            Admit(file).Admitted? && !(stored.JArray? && Storage.NoNull(stored.elems)) ==>
              o == Threw(TypeError)
    ensures var stored := Storage.GetPrompts(ls);
            var g := Admit(file);
            g.Admitted? && stored.JArray? && Storage.NoNull(stored.elems) ==>
              o == Returned(Valid(ExportVersion, |g.prompts|, DupIds(g.prompts) != [], DupIds(g.prompts),
                                  ConflictsOf(g.prompts, stored.elems), g.data))
  {
    var gate := Admit(file);
    if gate.Rejected? {
      return Returned(Invalid(gate.reason));
    }
    var prompts := gate.prompts;
    var dupIds := CollectDupIds(prompts);
    var existing := Storage.GetPrompts(ls);
    if !existing.JArray? || !Storage.NoNull(existing.elems) {
      return Threw(TypeError);
    }
    var conflicts := CollectConflicts(prompts, existing.elems);
    return Returned(Valid(ExportVersion, |prompts|, |dupIds| > 0, dupIds, conflicts, gate.data));
  }

  /** The first loop of analyzeImportFile: ids met again, in file order. */
  method CollectDupIds(prompts: seq<Json>) returns (dupIds: seq<string>)
    requires AllShaped(prompts)
    ensures dupIds == DupIds(prompts)
  {
    var seen: set<string> := {};
    dupIds := [];
    var i := 0;
    while i < |prompts|
      invariant 0 <= i <= |prompts|
      invariant AllShaped(prompts[..i])
      invariant seen == IdSet(prompts[..i])
      invariant dupIds == DupIds(prompts[..i])
    {
      IdSetSnoc(prompts, i);
      DupIdsStep(prompts, i);
      var id := IdOf(prompts[i]);
      if id in seen {
        dupIds := dupIds + [id];
      }
      seen := seen + {id};
      i := i + 1;
    }
    assert prompts[..i] == prompts;
  }

  /** The second loop of analyzeImportFile: the incoming records whose id
      the stored table already holds. */
  method CollectConflicts(prompts: seq<Json>, existing: seq<Json>) returns (conflicts: seq<Conflict>)
    requires AllShaped(prompts)
    ensures conflicts == ConflictsOf(prompts, existing)
  {
    var existingMap := MapFromPairs(Entries(existing));
    conflicts := [];
    var i := 0;
    while i < |prompts|
      invariant 0 <= i <= |prompts|
      invariant AllShaped(prompts[..i])
      invariant conflicts == ConflictsOf(prompts[..i], existing)
    {
      ConflictsStep(prompts, existing, i);
      var p := prompts[i];
      var e := KeyIndex(existingMap, Scalar(JString(IdOf(p))));
      ConflictFromMap(existing, existingMap, p);
      if e >= 0 && Truthy(existingMap[e].1) {
        var found := existingMap[e].1;
        conflicts := conflicts + [Conflict(IdOf(p), Field(found, "title"), TitleOf(p))];
      }
      i := i + 1;
    }
    assert prompts[..i] == prompts;
  }
}
