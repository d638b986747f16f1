/**
  What one run of the merge script does to the four tables, and what the change report
  says about it: the upsert and the scoped delete of each partition, the item merge, the
  classification of the reported rows, and what a second run of the same batch does.
*/
module MergeProperties {
  import opened Wrappers
  import opened Entities
  import opened Statements
  import opened ChangeReport
  import opened Provider

  // ---------- touched scope, stated on the batch ----------

  /** Some marker row of the batch names the item. */
  ghost predicate ItemMarked(b: Batch, itemId: Guid)
  {
    exists f :: f in b.fields && f.fieldId == b.uriMarkerFieldId && f.itemId == itemId
  }

  /** Some marker row of the batch names the item in this language. */
  ghost predicate LanguageMarked(b: Batch, itemId: Guid, language: Language)
  {
    exists f :: f in b.fields && f.fieldId == b.uriMarkerFieldId && f.itemId == itemId && f.language == Some(language)
  }

  /** Some marker row of the batch names exactly this version. */
  ghost predicate VersionMarked(b: Batch, itemId: Guid, language: Language, version: int)
  {
    exists f :: f in b.fields && f.fieldId == b.uriMarkerFieldId && f.itemId == itemId
                && f.language == Some(language) && f.version == Some(version)
  }

  /** The DELETE scopes read off @Uris are the marker rows of the batch. */
  lemma ScopesAreMarkerRows(b: Batch, uris: set<Uri>)
    requires TouchedUris(b.fields, b.uriMarkerFieldId) == Success(uris)
    ensures forall k :: SharedScope(uris)(k) <==> ItemMarked(b, k.itemId)
    ensures forall k :: UnversionedScope(uris)(k) <==> LanguageMarked(b, k.itemId, k.language)
    ensures forall k :: VersionedScope(uris)(k) <==> VersionMarked(b, k.itemId, k.language, k.version)
  {
    forall k: SharedKey | ItemMarked(b, k.itemId) ensures SharedInScope(uris, k) {
      var f :| f in b.fields && f.fieldId == b.uriMarkerFieldId && f.itemId == k.itemId;
      assert UriOf(f) in uris;
    }
    forall k: UnversionedKey | LanguageMarked(b, k.itemId, k.language) ensures UnversionedInScope(uris, k) {
      var f :| f in b.fields && f.fieldId == b.uriMarkerFieldId && f.itemId == k.itemId && f.language == Some(k.language);
      assert UriOf(f) in uris;
    }
  }

  // ---------- one partition: UPDATE, INSERT, DELETE ----------

  /**
    What the UPDATE, INSERT and DELETE of one partition leave in `merged`, given the table
    before them:
    - only stored keys and keys of incoming rows of the partition are present;
    - every incoming row of the partition has a row under its key, and a key that was not
      stored holds that incoming row's columns;
    - a stored row is gone exactly when its key is in the delete scope and no incoming row
      of the partition has that key;
    - a surviving stored row is unchanged when no joining incoming row has a differing
      Value, and otherwise holds the Value and Updated of some such row.
  */
  ghost predicate MergedAsScripted<K>(table: map<K, FieldRow>, merged: map<K, FieldRow>, fields: seq<FieldData>,
                                      joins: (K, FieldData) -> bool, keyOf: FieldData -> Option<K>,
                                      inScope: K -> bool)
  {
    && (forall k :: k in merged ==> k in table || exists f :: f in fields && keyOf(f) == Some(k))
    && (forall f :: f in fields && keyOf(f).Some? ==> keyOf(f).value in merged)
    && (forall f :: f in fields && keyOf(f).Some? && keyOf(f).value !in table ==> merged[keyOf(f).value] == NewFieldRow(f))
    && (forall k :: k in table ==> (k !in merged <==> inScope(k) && forall f :: f in fields ==> keyOf(f) != Some(k)))
    && (forall k :: k in table && k in merged && (forall f :: f in fields && joins(k, f) ==> !SqlNe(table[k].value, f.value))
          ==> merged[k] == table[k])
    && (forall k :: k in table && k in merged && (exists f :: f in fields && joins(k, f) && SqlNe(table[k].value, f.value))
          ==> exists f :: f in fields && joins(k, f) && SqlNe(table[k].value, f.value) && merged[k] == OverwriteField(table[k], f))
  }

  lemma MergedRowsAsScripted<K>(table: map<K, FieldRow>, fields: seq<FieldData>, joins: (K, FieldData) -> bool,
                                keyOf: FieldData -> Option<K>, inScope: K -> bool)
    requires UniquePartitionKeys(fields, keyOf)
    ensures MergedAsScripted(table, MergedRows(table, fields, joins, keyOf, inScope), fields, joins, keyOf, inScope)
  {
    var updated := UpdateRows(table, fields, joins);
    UpdateRowsEffect(table, fields, joins);
    var inserted := InsertRows(updated, fields, keyOf);
    InsertRowsEffect(updated, fields, keyOf);
    var merged := DeleteRows(inserted, fields, keyOf, inScope);
    DeleteRowsEffect(inserted, fields, keyOf, inScope);
    forall k | k in merged
      ensures k in table || exists f :: f in fields && keyOf(f) == Some(k)
    {
      if k !in table {
        var f :| f in fields && keyOf(f).Some? && keyOf(f).value == k;
      }
    }
    forall f | f in fields && keyOf(f).Some?
      ensures keyOf(f).value in merged
    {
      assert keyOf(f).value in inserted;
    }
  }

  /** Only the membership of the delete scope matters, not how it is written. */
  lemma SameScopeSameMerge<K>(table: map<K, FieldRow>, merged: map<K, FieldRow>, fields: seq<FieldData>,
                              joins: (K, FieldData) -> bool, keyOf: FieldData -> Option<K>,
                              inScope: K -> bool, sameScope: K -> bool)
    requires MergedAsScripted(table, merged, fields, joins, keyOf, inScope)
    requires forall k :: inScope(k) <==> sameScope(k)
    ensures MergedAsScripted(table, merged, fields, joins, keyOf, sameScope)
  {
  }

  // ---------- the tables after a run ----------

  /**
    The Items UPDATE and INSERT: afterwards the table holds exactly the stored and the
    incoming Ids; a new item has all its incoming columns; a stored item of the batch takes
    the incoming Name, TemplateID, MasterID, ParentID and Updated when one of the four
    differs, and is left alone otherwise; stored items outside the batch are left alone;
    Created never changes.
  */
  lemma MergedItemsAsScripted(table: map<Guid, ItemRow>, items: seq<ItemData>)
    requires UniqueItemIds(items)
    ensures MergedItems(table, items).Keys == table.Keys + (set n | n in items :: n.id)
    ensures forall n :: n in items && n.id !in table ==> MergedItems(table, items)[n.id] == NewItemRow(n)
    ensures forall n :: n in items && n.id in table ==>
      MergedItems(table, items)[n.id] == if ItemDiffers(table[n.id], n) then OverwriteItem(table[n.id], n) else table[n.id]
    ensures forall id :: id in table && (forall n :: n in items ==> n.id != id) ==> MergedItems(table, items)[id] == table[id]
    ensures forall id :: id in table ==> MergedItems(table, items)[id].created == table[id].created
  {
    var updated := UpdateItems(table, items);
    UpdateItemsEffect(table, items);
    InsertItemsEffect(updated, items);
    forall n | n in items && n.id in table && ItemDiffers(table[n.id], n)
      ensures MergedItems(table, items)[n.id] == OverwriteItem(table[n.id], n)
    {
      var m :| m in items && m.id == n.id && ItemDiffers(table[n.id], m) && updated[n.id] == OverwriteItem(table[n.id], m);
      SameIdSameItem(items, m, n);
    }
  }

  /** The item merge of a run. */
  lemma ItemsMerged(db: Db, b: Batch)
    requires WellKeyed(b) && Run(db, b).Success?
    ensures Run(db, b).value.db.items == MergedItems(db.items, b.items)
    ensures Run(db, b).value.db.items.Keys == db.items.Keys + (set n | n in b.items :: n.id)
    ensures forall n :: n in b.items ==> n.id in Run(db, b).value.db.items
  {
    RunSucceeds(db, b, TouchedUris(b.fields, b.uriMarkerFieldId).value);
    MergedItemsAsScripted(db.items, b.items);
  }

  /** Two incoming items with the same Id are the same item. */
  lemma SameIdSameItem(items: seq<ItemData>, m: ItemData, n: ItemData)
    requires UniqueItemIds(items) && m in items && n in items && m.id == n.id
    ensures m == n
  {
    var i :| 0 <= i < |items| && items[i] == m;
    var j :| 0 <= j < |items| && items[j] == n;
  }

  /**
    SharedFields after a run: the partition's upsert, and a delete scoped to the items some
    marker row names, keeping every row that an incoming row with NULL Language and NULL
    Version matches on (ItemId, FieldId). The UPDATE joins on (ItemId, FieldId) alone.
  */
  lemma SharedFieldsMerged(db: Db, b: Batch)
    requires WellKeyed(b) && Run(db, b).Success?
    ensures MergedAsScripted(db.sharedFields, Run(db, b).value.db.sharedFields, b.fields, SharedUpdateJoin,
                             SharedKeyOf, (k: SharedKey) => ItemMarked(b, k.itemId))
  {
    var uris := TouchedUris(b.fields, b.uriMarkerFieldId).value;
    ScopesAreMarkerRows(b, uris);
    RunSucceeds(db, b, uris);
    MergedRowsAsScripted(db.sharedFields, b.fields, SharedUpdateJoin, SharedKeyOf, SharedScope(uris));
    SameScopeSameMerge(db.sharedFields, Run(db, b).value.db.sharedFields, b.fields, SharedUpdateJoin, SharedKeyOf, SharedScope(uris),
                       (k: SharedKey) => ItemMarked(b, k.itemId));
  }

  /**
    UnversionedFields after a run: the partition's upsert, and a delete scoped to the
    (ItemId, Language) pairs that some marker row names. The UPDATE ignores the incoming
    Version.
  */
  lemma UnversionedFieldsMerged(db: Db, b: Batch)
    requires WellKeyed(b) && Run(db, b).Success?
    ensures MergedAsScripted(db.unversionedFields, Run(db, b).value.db.unversionedFields, b.fields,
                             UnversionedUpdateJoin, UnversionedKeyOf,
                             (k: UnversionedKey) => LanguageMarked(b, k.itemId, k.language))
  {
    var uris := TouchedUris(b.fields, b.uriMarkerFieldId).value;
    ScopesAreMarkerRows(b, uris);
    RunSucceeds(db, b, uris);
    MergedRowsAsScripted(db.unversionedFields, b.fields, UnversionedUpdateJoin, UnversionedKeyOf, UnversionedScope(uris));
    SameScopeSameMerge(db.unversionedFields, Run(db, b).value.db.unversionedFields, b.fields, UnversionedUpdateJoin, UnversionedKeyOf, UnversionedScope(uris),
                       (k: UnversionedKey) => LanguageMarked(b, k.itemId, k.language));
  }

  /**
    VersionedFields after a run: the partition's upsert, and a delete scoped to exactly the
    (ItemId, Language, Version) triples that some marker row names.
  */
  lemma VersionedFieldsMerged(db: Db, b: Batch)
    requires WellKeyed(b) && Run(db, b).Success?
    ensures MergedAsScripted(db.versionedFields, Run(db, b).value.db.versionedFields, b.fields,
                             VersionedUpdateJoin, VersionedKeyOf,
                             (k: VersionedKey) => VersionMarked(b, k.itemId, k.language, k.version))
  {
    var uris := TouchedUris(b.fields, b.uriMarkerFieldId).value;
    ScopesAreMarkerRows(b, uris);
    RunSucceeds(db, b, uris);
    MergedRowsAsScripted(db.versionedFields, b.fields, VersionedUpdateJoin, VersionedKeyOf, VersionedScope(uris));
    SameScopeSameMerge(db.versionedFields, Run(db, b).value.db.versionedFields, b.fields, VersionedUpdateJoin, VersionedKeyOf, VersionedScope(uris),
                       (k: VersionedKey) => VersionMarked(b, k.itemId, k.language, k.version));
  }

  // ---------- the change report ----------

  /**
    The field rows AddOrUpdateVariants returns: for each partition whose report list is
    non-empty, its change rows against the table as it was before the run, without the
    rows whose Value equals their OriginalValue; Shared first, then Unversioned, then
    Versioned.
  */
  function ReportedFieldChanges(db: Db, b: Batch): seq<FieldChange>
  {
    (if b.invariantFieldsToReport != {}
     then WithoutUnchanged(FieldChanges(db.sharedFields, b.fields, b.invariantFieldsToReport, SharedKeyOf)) else [])
    + (if b.langVariantFieldsToReport != {}
       then WithoutUnchanged(FieldChanges(db.unversionedFields, b.fields, b.langVariantFieldsToReport, UnversionedKeyOf))
       else [])
    + (if b.variantFieldsToReport != {}
       then WithoutUnchanged(FieldChanges(db.versionedFields, b.fields, b.variantFieldsToReport, VersionedKeyOf))
       else [])
  }

  /** A row is among the returned field rows exactly when it survives the filter of a requested partition. */
  lemma InReportedFieldChanges(db: Db, b: Batch, c: FieldChange)
    ensures c in ReportedFieldChanges(db, b) <==>
      || (b.invariantFieldsToReport != {}
          && c in WithoutUnchanged(FieldChanges(db.sharedFields, b.fields, b.invariantFieldsToReport, SharedKeyOf)))
      || (b.langVariantFieldsToReport != {}
          && c in WithoutUnchanged(FieldChanges(db.unversionedFields, b.fields, b.langVariantFieldsToReport, UnversionedKeyOf)))
      || (b.variantFieldsToReport != {}
          && c in WithoutUnchanged(FieldChanges(db.versionedFields, b.fields, b.variantFieldsToReport, VersionedKeyOf)))
  {
  }

  /**
    AddOrUpdateVariants fails exactly when the script fails, with the script's error; the
    reader always finds the sets the script emitted. On success the tables are the
    script's, and the report is empty when changes are not calculated and otherwise holds
    the item change rows and the filtered field change rows, all computed against the
    tables as they were before the run.
  */
  lemma ChangeReportOfRun(db: Db, b: Batch)
    requires WellKeyed(b)
    ensures AddOrUpdate(db, b).Failure? <==> Run(db, b).Failure?
    ensures Run(db, b).Failure? ==> AddOrUpdate(db, b).error == ScriptFailed(Run(db, b).error)
    ensures Run(db, b).Success? ==> AddOrUpdate(db, b).value.0 == Run(db, b).value.db
    ensures Run(db, b).Success? && !b.calculateChanges ==> AddOrUpdate(db, b).value.1 == EmptyReport()
    ensures Run(db, b).Success? && b.calculateChanges ==>
      AddOrUpdate(db, b).value.1 == Report(ItemChanges(db.items, b.items), ReportedFieldChanges(db, b))
  {
    if Run(db, b).Success? && b.calculateChanges {
      var inv, lang, vari := b.invariantFieldsToReport, b.langVariantFieldsToReport, b.variantFieldsToReport;
      var shared := FieldChanges(db.sharedFields, b.fields, inv, SharedKeyOf);
      var unversioned := FieldChanges(db.unversionedFields, b.fields, lang, UnversionedKeyOf);
      var versioned := FieldChanges(db.versionedFields, b.fields, vari, VersionedKeyOf);
      assert Run(db, b).value.results
          == ReportSets(ItemChanges(db.items, b.items), shared, unversioned, versioned, inv, lang, vari);
      ReadsWhatScriptEmits(ItemChanges(db.items, b.items), shared, unversioned, versioned, inv, lang, vari);
    }
  }

  /**
    The call fails exactly when two marker rows carry the same (ItemId, Language, Version)
    triple, and then with the script's error naming such a triple.
  */
  lemma FailsOnRepeatedMarker(db: Db, b: Batch)
    requires WellKeyed(b)
    ensures AddOrUpdate(db, b).Failure? <==> exists u :: MarkerUriRepeats(b.fields, b.uriMarkerFieldId, u)
    ensures AddOrUpdate(db, b).Failure? ==>
      && AddOrUpdate(db, b).error.ScriptFailed?
      && MarkerUriRepeats(b.fields, b.uriMarkerFieldId, AddOrUpdate(db, b).error.scriptError.uri)
  {
    ChangeReportOfRun(db, b);
  }

  /** A change row that survives the filter is classified: never Unchanged, and Created only with a non-NULL Value. */
  lemma FilteredRowsChanged<K>(db: map<K, FieldRow>, batch: seq<FieldData>, report: set<Guid>,
                               keyOf: FieldData -> Option<K>)
    ensures forall c :: c in WithoutUnchanged(FieldChanges(db, batch, report, keyOf)) ==>
      && c.editType != Unchanged
      && (c.editType == Created ==> c.value.Some?)
      && c.fieldId in report
      && exists f :: f in batch && c.itemId == f.itemId && c.fieldId == f.fieldId && c.language == f.language
                     && c.version == f.version && c.value == f.value
  {
    var rows := FieldChanges(db, batch, report, keyOf);
    FieldChangesRows(db, batch, report, keyOf);
    forall c | c in WithoutUnchanged(rows)
      ensures && c.editType != Unchanged
              && (c.editType == Created ==> c.value.Some?)
              && c.fieldId in report
              && exists f :: f in batch && c.itemId == f.itemId && c.fieldId == f.fieldId && c.language == f.language
                             && c.version == f.version && c.value == f.value
    {
      var i :| 0 <= i < |rows| && rows[i] == c;
      var f := Reported(batch, report)[i];
      assert f in Reported(batch, report);
    }
  }

  /**
    Every field row the provider returns changed something: none is Unchanged, its Value
    differs from its OriginalValue, a Created row carries a Value, and it is the row of an
    incoming field whose FieldId is on a report list.
  */
  lemma NoUnchangedReported(db: Db, b: Batch)
    requires WellKeyed(b) && AddOrUpdate(db, b).Success?
    ensures forall c :: c in AddOrUpdate(db, b).value.1.fieldChanges ==>
      && c.value != c.originalValue
      && c.editType != Unchanged
      && (c.editType == Created ==> c.value.Some?)
      && c.fieldId in b.invariantFieldsToReport + b.langVariantFieldsToReport + b.variantFieldsToReport
      && exists f :: f in b.fields && c.itemId == f.itemId && c.fieldId == f.fieldId && c.language == f.language
                     && c.version == f.version && c.value == f.value
  {
    ChangeReportOfRun(db, b);
    ReportedRowsChanged(db, b);
  }

  /** The filtered field rows of the three partitions, taken together. */
  lemma ReportedRowsChanged(db: Db, b: Batch)
    ensures forall c :: c in ReportedFieldChanges(db, b) ==>
      && c.value != c.originalValue
      && c.editType != Unchanged
      && (c.editType == Created ==> c.value.Some?)
      && c.fieldId in b.invariantFieldsToReport + b.langVariantFieldsToReport + b.variantFieldsToReport
      && exists f :: f in b.fields && c.itemId == f.itemId && c.fieldId == f.fieldId && c.language == f.language
                     && c.version == f.version && c.value == f.value
  {
    FilteredRowsChanged(db.sharedFields, b.fields, b.invariantFieldsToReport, SharedKeyOf);
    FilteredRowsChanged(db.unversionedFields, b.fields, b.langVariantFieldsToReport, UnversionedKeyOf);
    FilteredRowsChanged(db.versionedFields, b.fields, b.variantFieldsToReport, VersionedKeyOf);
    forall c | c in ReportedFieldChanges(db, b) {
      InReportedFieldChanges(db, b, c);
    }
  }

  /**
    The item rows of the report: when changes are calculated, one per incoming item in
    order, Created exactly when no stored item had its Id before the run, and a Created row
    reports no original value.
  */
  lemma ItemRowsOfRun(db: Db, b: Batch)
    requires WellKeyed(b) && AddOrUpdate(db, b).Success? && b.calculateChanges
    ensures |AddOrUpdate(db, b).value.1.itemChanges| == |b.items|
    ensures forall i :: 0 <= i < |b.items| ==>
      var c := AddOrUpdate(db, b).value.1.itemChanges[i];
      && c.id == b.items[i].id
      && (c.editType == ItemCreated <==> b.items[i].id !in db.items)
      && (c.editType == ItemCreated ==>
            c.originalName.None? && c.originalTemplateId.None? && c.originalMasterId.None? && c.originalParentId.None?)
  {
    ChangeReportOfRun(db, b);
    assert AddOrUpdate(db, b).value.1.itemChanges == ItemChanges(db.items, b.items);
    ItemChangesRows(db.items, b.items);
  }

  /**
    The Shared report's join tests NULL Language and Version inside its ON clause, so an
    incoming row of another partition with a non-NULL Value whose FieldId is on the Shared
    report list always comes back Created with no OriginalValue, whatever is stored. A row
    with a NULL Value equals its NULL OriginalValue and is dropped by the filter.
  */
  lemma OtherPartitionRowsReportedCreated(db: Db, b: Batch, f: FieldData)
    requires WellKeyed(b) && AddOrUpdate(db, b).Success? && b.calculateChanges
    requires f in b.fields && f.fieldId in b.invariantFieldsToReport && f.language.Some? && f.value.Some?
    ensures FieldChange(f.itemId, f.fieldId, f.language, f.version, f.value, None, Created)
            in AddOrUpdate(db, b).value.1.fieldChanges
  {
    ChangeReportOfRun(db, b);
    OtherPartitionRowCreated(db.sharedFields, b.fields, b.invariantFieldsToReport, f);
    InReportedFieldChanges(db, b, FieldChange(f.itemId, f.fieldId, f.language, f.version, f.value, None, Created));
  }

  /** The Shared change row of an incoming row with a Language and a Value: Created, with no OriginalValue. */
  lemma OtherPartitionRowCreated(table: map<SharedKey, FieldRow>, fields: seq<FieldData>, report: set<Guid>,
                                 f: FieldData)
    requires f in fields && f.fieldId in report && f.language.Some? && f.value.Some?
    ensures FieldChange(f.itemId, f.fieldId, f.language, f.version, f.value, None, Created)
            in WithoutUnchanged(FieldChanges(table, fields, report, SharedKeyOf))
  {
    var rows := FieldChanges(table, fields, report, SharedKeyOf);
    FieldChangesRows(table, fields, report, SharedKeyOf);
    assert f in Reported(fields, report);
    var i :| 0 <= i < |Reported(fields, report)| && Reported(fields, report)[i] == f;
    assert rows[i] == FieldChange(f.itemId, f.fieldId, f.language, f.version, f.value, None, Created);
  }

  // ---------- running the same batch again ----------

  /** Two incoming rows under the same key of a partition are the same row. */
  lemma SameKeySameRow<K>(fields: seq<FieldData>, keyOf: FieldData -> Option<K>, f: FieldData, g: FieldData)
    requires UniquePartitionKeys(fields, keyOf)
    requires f in fields && g in fields && keyOf(f).Some? && keyOf(f) == keyOf(g)
    ensures f == g
  {
    var i :| 0 <= i < |fields| && fields[i] == f;
    var j :| 0 <= j < |fields| && fields[j] == g;
  }

  /**
    The UPDATE of a partition joins a row present after the merge only to the incoming row
    under its own key. This always holds for VersionedFields; for SharedFields and
    UnversionedFields it fails when the batch carries a row of another partition with the
    same ItemId and FieldId (and Language).
  */
  ghost predicate JoinsOnlyOwnKey<K(!new)>(table: map<K, FieldRow>, fields: seq<FieldData>, joins: (K, FieldData) -> bool,
                                     keyOf: FieldData -> Option<K>)
  {
    forall k, f :: f in fields && joins(k, f) && (k in table || exists g :: g in fields && keyOf(g) == Some(k))
      ==> keyOf(f) == Some(k)
  }

  /** An incoming row of the partition joins the stored row under its key. */
  ghost predicate KeyedRowsJoin<K>(fields: seq<FieldData>, joins: (K, FieldData) -> bool, keyOf: FieldData -> Option<K>)
  {
    forall f :: f in fields && keyOf(f).Some? ==> joins(keyOf(f).value, f)
  }

  lemma VersionedJoinsOnlyOwnKey(table: map<VersionedKey, FieldRow>, fields: seq<FieldData>)
    ensures JoinsOnlyOwnKey(table, fields, VersionedUpdateJoin, VersionedKeyOf)
  {
  }

  /**
    After a merge whose UPDATE joins only own keys, the row under the key of an incoming row
    of the partition is present and no longer differs from it: it holds that row's Value,
    or the stored Value the UPDATE left alone.
  */
  lemma MergedValues<K(!new)>(table: map<K, FieldRow>, merged: map<K, FieldRow>, fields: seq<FieldData>,
                              joins: (K, FieldData) -> bool, keyOf: FieldData -> Option<K>, inScope: K -> bool,
                              f: FieldData)
    requires MergedAsScripted(table, merged, fields, joins, keyOf, inScope)
    requires UniquePartitionKeys(fields, keyOf) && JoinsOnlyOwnKey(table, fields, joins, keyOf)
    requires f in fields && keyOf(f).Some? && joins(keyOf(f).value, f)
    ensures keyOf(f).value in merged
    ensures !SqlNe(merged[keyOf(f).value].value, f.value)
    ensures keyOf(f).value in table && !SqlNe(table[keyOf(f).value].value, f.value) ==>
      merged[keyOf(f).value] == table[keyOf(f).value]
    ensures keyOf(f).value !in table || SqlNe(table[keyOf(f).value].value, f.value) ==>
      merged[keyOf(f).value].value == f.value
  {
    var k := keyOf(f).value;
    if k in table {
      if SqlNe(table[k].value, f.value) {
        var g :| g in fields && joins(k, g) && SqlNe(table[k].value, g.value) && merged[k] == OverwriteField(table[k], g);
        SameKeySameRow(fields, keyOf, f, g);
      } else {
        forall g | g in fields && joins(k, g) ensures !SqlNe(table[k].value, g.value) {
          SameKeySameRow(fields, keyOf, f, g);
        }
      }
    }
  }

  /** An UPDATE finds nothing to do when no joined row has a differing Value. */
  lemma UpdateRowsSettled<K>(table: map<K, FieldRow>, fields: seq<FieldData>, joins: (K, FieldData) -> bool)
    requires forall k, f :: k in table && f in fields && joins(k, f) ==> !SqlNe(table[k].value, f.value)
    ensures UpdateRows(table, fields, joins) == table
  {
    UpdateRowsEffect(table, fields, joins);
  }

  /** An INSERT finds nothing to do when every incoming row of the partition already has its key. */
  lemma InsertRowsSettled<K>(table: map<K, FieldRow>, fields: seq<FieldData>, keyOf: FieldData -> Option<K>)
    requires UniquePartitionKeys(fields, keyOf)
    requires forall f :: f in fields && keyOf(f).Some? ==> keyOf(f).value in table
    ensures InsertRows(table, fields, keyOf) == table
  {
    InsertRowsEffect(table, fields, keyOf);
  }

  /** A DELETE finds nothing to do when no row is both in scope and unmatched. */
  lemma DeleteRowsSettled<K>(table: map<K, FieldRow>, fields: seq<FieldData>, keyOf: FieldData -> Option<K>,
                             inScope: K -> bool)
    requires forall k :: k in table && inScope(k) ==> exists f :: f in fields && keyOf(f) == Some(k)
    ensures DeleteRows(table, fields, keyOf, inScope) == table
  {
    DeleteRowsEffect(table, fields, keyOf, inScope);
  }

  /**
    A partition merged as the script does is settled: merging it again with the same rows
    and scope changes nothing, provided its UPDATE joins rows only to their own key.
  */
  lemma MergedRowsSettled<K(!new)>(table: map<K, FieldRow>, once: map<K, FieldRow>, fields: seq<FieldData>,
                                   joins: (K, FieldData) -> bool, keyOf: FieldData -> Option<K>, inScope: K -> bool)
    requires MergedAsScripted(table, once, fields, joins, keyOf, inScope)
    requires UniquePartitionKeys(fields, keyOf) && JoinsOnlyOwnKey(table, fields, joins, keyOf)
    requires KeyedRowsJoin(fields, joins, keyOf)
    ensures MergedRows(once, fields, joins, keyOf, inScope) == once
  {
    forall k, f | k in once && f in fields && joins(k, f) ensures !SqlNe(once[k].value, f.value) {
      assert keyOf(f) == Some(k);
      MergedValues(table, once, fields, joins, keyOf, inScope, f);
    }
    UpdateRowsSettled(once, fields, joins);
    InsertRowsSettled(once, fields, keyOf);
    forall k | k in once && inScope(k) ensures exists f :: f in fields && keyOf(f) == Some(k) {
      if k in table {
        assert !(k !in once);
      }
    }
    DeleteRowsSettled(once, fields, keyOf, inScope);
  }

  /** Merging a partition a second time with the same rows and scope changes nothing. */
  lemma MergedRowsIdempotent<K(!new)>(table: map<K, FieldRow>, fields: seq<FieldData>,
                                      joins: (K, FieldData) -> bool, keyOf: FieldData -> Option<K>,
                                      inScope: K -> bool)
    requires UniquePartitionKeys(fields, keyOf) && JoinsOnlyOwnKey(table, fields, joins, keyOf)
    requires KeyedRowsJoin(fields, joins, keyOf)
    ensures MergedRows(MergedRows(table, fields, joins, keyOf, inScope), fields, joins, keyOf, inScope)
         == MergedRows(table, fields, joins, keyOf, inScope)
  {
    MergedRowsAsScripted(table, fields, joins, keyOf, inScope);
    MergedRowsSettled(table, MergedRows(table, fields, joins, keyOf, inScope), fields, joins, keyOf, inScope);
  }

  /** The Items UPDATE finds nothing to do when no joined item differs. */
  lemma UpdateItemsSettled(table: map<Guid, ItemRow>, items: seq<ItemData>)
    requires forall id, n :: id in table && n in items && n.id == id ==> !ItemDiffers(table[id], n)
    ensures UpdateItems(table, items) == table
  {
    UpdateItemsEffect(table, items);
  }

  /** The Items INSERT finds nothing to do when every incoming Id is stored. */
  lemma InsertItemsSettled(table: map<Guid, ItemRow>, items: seq<ItemData>)
    requires UniqueItemIds(items)
    requires forall n :: n in items ==> n.id in table
    ensures InsertItems(table, items) == table
  {
    InsertItemsEffect(table, items);
  }

  /** After the item merge, every incoming item is stored and no longer differs from its stored row. */
  lemma MergedItemsSettled(table: map<Guid, ItemRow>, items: seq<ItemData>)
    requires UniqueItemIds(items)
    ensures forall n :: n in items ==> n.id in MergedItems(table, items) && !ItemDiffers(MergedItems(table, items)[n.id], n)
  {
    var once := MergedItems(table, items);
    MergedItemsAsScripted(table, items);
    forall n | n in items ensures !ItemDiffers(once[n.id], n) {
      var row := once[n.id];
      assert (row.name == n.name && row.templateId == n.templateId && row.masterId == n.masterId && row.parentId == n.parentId)
        || (n.id in table && row == table[n.id] && !ItemDiffers(table[n.id], n));
    }
  }

  /** Merging the items a second time with the same batch changes nothing. */
  lemma ItemsMergeIdempotent(table: map<Guid, ItemRow>, items: seq<ItemData>)
    requires UniqueItemIds(items)
    ensures MergedItems(MergedItems(table, items), items) == MergedItems(table, items)
  {
    var once := MergedItems(table, items);
    MergedItemsSettled(table, items);
    forall id, n | id in once && n in items && n.id == id ensures !ItemDiffers(once[id], n) {
    }
    UpdateItemsSettled(once, items);
    InsertItemsSettled(once, items);
  }

  /**
    Running a batch a second time leaves the tables as the first run left them, provided
    no incoming row of another partition shares the (ItemId, FieldId) of a SharedFields row
    or the (ItemId, FieldId, Language) of an UnversionedFields row.
  */
  lemma RerunLeavesTables(db: Db, b: Batch)
    requires WellKeyed(b) && Run(db, b).Success?
    requires JoinsOnlyOwnKey(db.sharedFields, b.fields, SharedUpdateJoin, SharedKeyOf)
    requires JoinsOnlyOwnKey(db.unversionedFields, b.fields, UnversionedUpdateJoin, UnversionedKeyOf)
    ensures Run(Run(db, b).value.db, b).Success?
    ensures Run(Run(db, b).value.db, b).value.db == Run(db, b).value.db
  {
    var uris := TouchedUris(b.fields, b.uriMarkerFieldId).value;
    var once := Run(db, b).value.db;
    RunSucceeds(db, b, uris);
    RunSucceeds(once, b, uris);
    ItemsMergeIdempotent(db.items, b.items);
    PartitionsMergeIdempotent(db, b.fields, uris);
  }

  /**
    The three partitions, merged twice with the same rows and scope, are merged once, provided
    no incoming row of another partition joins a SharedFields or UnversionedFields row.
  */
  lemma PartitionsMergeIdempotent(db: Db, fields: seq<FieldData>, uris: set<Uri>)
    requires UniquePartitionKeys(fields, SharedKeyOf)
    requires UniquePartitionKeys(fields, UnversionedKeyOf)
    requires UniquePartitionKeys(fields, VersionedKeyOf)
    requires JoinsOnlyOwnKey(db.sharedFields, fields, SharedUpdateJoin, SharedKeyOf)
    requires JoinsOnlyOwnKey(db.unversionedFields, fields, UnversionedUpdateJoin, UnversionedKeyOf)
    ensures MergedShared(MergedShared(db.sharedFields, fields, uris), fields, uris) == MergedShared(db.sharedFields, fields, uris)
    ensures MergedUnversioned(MergedUnversioned(db.unversionedFields, fields, uris), fields, uris)
         == MergedUnversioned(db.unversionedFields, fields, uris)
    ensures MergedVersioned(MergedVersioned(db.versionedFields, fields, uris), fields, uris)
         == MergedVersioned(db.versionedFields, fields, uris)
  {
    MergedRowsIdempotent(db.sharedFields, fields, SharedUpdateJoin, SharedKeyOf, SharedScope(uris));
    MergedRowsIdempotent(db.unversionedFields, fields, UnversionedUpdateJoin, UnversionedKeyOf, UnversionedScope(uris));
    VersionedJoinsOnlyOwnKey(db.versionedFields, fields);
    MergedRowsIdempotent(db.versionedFields, fields, VersionedUpdateJoin, VersionedKeyOf, VersionedScope(uris));
  }

  /** Every report list names fields of its own partition only. */
  ghost predicate ReportListsMatchPartitions(b: Batch)
  {
    forall f :: f in b.fields ==>
      && (f.fieldId in b.invariantFieldsToReport ==> SharedKeyOf(f).Some?)
      && (f.fieldId in b.langVariantFieldsToReport ==> UnversionedKeyOf(f).Some?)
      && (f.fieldId in b.variantFieldsToReport ==> VersionedKeyOf(f).Some?)
  }

  /** No incoming and no stored field Value is NULL. */
  ghost predicate NoNullValues(db: Db, b: Batch)
  {
    && (forall f :: f in b.fields ==> f.value.Some?)
    && (forall k :: k in db.sharedFields ==> db.sharedFields[k].value.Some?)
    && (forall k :: k in db.unversionedFields ==> db.unversionedFields[k].value.Some?)
    && (forall k :: k in db.versionedFields ==> db.versionedFields[k].value.Some?)
  }

  /** Against the merged item table, every incoming item is reported Updated with no original values. */
  lemma SettledItemsReportNothing(table: map<Guid, ItemRow>, items: seq<ItemData>)
    requires UniqueItemIds(items)
    ensures forall c :: c in ItemChanges(MergedItems(table, items), items) ==>
      && c.editType == ItemUpdated
      && c.originalName.None? && c.originalTemplateId.None? && c.originalMasterId.None? && c.originalParentId.None?
  {
    var once := MergedItems(table, items);
    MergedItemsSettled(table, items);
    ItemChangesRows(once, items);
    forall c | c in ItemChanges(once, items)
      ensures && c.editType == ItemUpdated
              && c.originalName.None? && c.originalTemplateId.None? && c.originalMasterId.None? && c.originalParentId.None?
    {
      var i :| 0 <= i < |items| && ItemChanges(once, items)[i] == c;
      assert items[i] in items;
    }
  }

  /** A second run reports every incoming item as Updated with no original values. */
  lemma RerunReportsNoItemChanges(db: Db, b: Batch)
    requires WellKeyed(b) && Run(db, b).Success? && b.calculateChanges
    ensures AddOrUpdate(Run(db, b).value.db, b).Success?
    ensures forall c :: c in AddOrUpdate(Run(db, b).value.db, b).value.1.itemChanges ==>
      && c.editType == ItemUpdated
      && c.originalName.None? && c.originalTemplateId.None? && c.originalMasterId.None? && c.originalParentId.None?
  {
    var uris := TouchedUris(b.fields, b.uriMarkerFieldId).value;
    var once := Run(db, b).value.db;
    RunSucceeds(db, b, uris);
    RunSucceeds(once, b, uris);
    ChangeReportOfRun(once, b);
    SettledItemsReportNothing(db.items, b.items);
  }

  /** Against a merged partition, every reported row is Unchanged, so none is returned. */
  lemma SettledRowsReportNothing<K(!new)>(table: map<K, FieldRow>, once: map<K, FieldRow>, fields: seq<FieldData>,
                                          joins: (K, FieldData) -> bool, keyOf: FieldData -> Option<K>,
                                          inScope: K -> bool, report: set<Guid>)
    requires MergedAsScripted(table, once, fields, joins, keyOf, inScope)
    requires UniquePartitionKeys(fields, keyOf) && JoinsOnlyOwnKey(table, fields, joins, keyOf)
    requires KeyedRowsJoin(fields, joins, keyOf)
    requires forall f :: f in fields && f.fieldId in report ==> keyOf(f).Some? && f.value.Some?
    requires forall k :: k in table ==> table[k].value.Some?
    ensures WithoutUnchanged(FieldChanges(once, fields, report, keyOf)) == []
  {
    var rows := FieldChanges(once, fields, report, keyOf);
    FieldChangesRows(once, fields, report, keyOf);
    forall i | 0 <= i < |rows| ensures rows[i].value == rows[i].originalValue {
      var f := Reported(fields, report)[i];
      assert f in Reported(fields, report);
      MergedValues(table, once, fields, joins, keyOf, inScope, f);
    }
    UnchangedRowsFilteredOut(rows);
  }

  /** Rows whose Value equals their OriginalValue all fall to the filter. */
  lemma UnchangedRowsFilteredOut(rows: seq<FieldChange>)
    requires forall i :: 0 <= i < |rows| ==> rows[i].value == rows[i].originalValue
    ensures WithoutUnchanged(rows) == []
  {
  }

  /**
    A second run of a batch reports no field change, provided every report list names
    fields of its own partition, no Value is NULL, and the Shared and Unversioned UPDATEs
    join rows only to their own key. Without these the claim fails: see
    `NullStoredValueReportedAgain` and `OtherPartitionRowsReportedCreated`.
  */
  lemma RerunReportsNoFieldChanges(db: Db, b: Batch)
    requires WellKeyed(b) && Run(db, b).Success? && b.calculateChanges
    requires JoinsOnlyOwnKey(db.sharedFields, b.fields, SharedUpdateJoin, SharedKeyOf)
    requires JoinsOnlyOwnKey(db.unversionedFields, b.fields, UnversionedUpdateJoin, UnversionedKeyOf)
    requires ReportListsMatchPartitions(b) && NoNullValues(db, b)
    ensures AddOrUpdate(Run(db, b).value.db, b).Success?
    ensures AddOrUpdate(Run(db, b).value.db, b).value.1.fieldChanges == []
  {
    var uris := TouchedUris(b.fields, b.uriMarkerFieldId).value;
    RunSucceeds(db, b, uris);
    ChangeReportOfRun(Run(db, b).value.db, b);
    SettledSharedReportsNothing(db, b, uris);
    SettledUnversionedReportsNothing(db, b, uris);
    SettledVersionedReportsNothing(db, b, uris);
  }

  /**
    What the settled-rows argument needs of each partition, from the conditions of the rerun
    lemma: the reported rows are keyed and carry a Value, the stored Values are not NULL, and
    each keyed row joins the row under its own key.
  */
  lemma RerunConditions(db: Db, b: Batch)
    requires ReportListsMatchPartitions(b) && NoNullValues(db, b)
    ensures forall f :: f in b.fields && f.fieldId in b.invariantFieldsToReport ==> SharedKeyOf(f).Some? && f.value.Some?
    ensures forall f :: f in b.fields && f.fieldId in b.langVariantFieldsToReport ==> UnversionedKeyOf(f).Some? && f.value.Some?
    ensures forall f :: f in b.fields && f.fieldId in b.variantFieldsToReport ==> VersionedKeyOf(f).Some? && f.value.Some?
    ensures KeyedRowsJoin(b.fields, SharedUpdateJoin, SharedKeyOf)
    ensures KeyedRowsJoin(b.fields, UnversionedUpdateJoin, UnversionedKeyOf)
    ensures KeyedRowsJoin(b.fields, VersionedUpdateJoin, VersionedKeyOf)
  {
  }

  /** The SharedFields change set against the merged SharedFields table is empty after the filter. */
  lemma SettledSharedReportsNothing(db: Db, b: Batch, uris: set<Uri>)
    requires WellKeyed(b) && TouchedUris(b.fields, b.uriMarkerFieldId) == Success(uris)
    requires JoinsOnlyOwnKey(db.sharedFields, b.fields, SharedUpdateJoin, SharedKeyOf)
    requires ReportListsMatchPartitions(b) && NoNullValues(db, b)
    ensures UniquePartitionKeys(b.fields, SharedKeyOf)
    ensures WithoutUnchanged(FieldChanges(MergedShared(db.sharedFields, b.fields, uris), b.fields, b.invariantFieldsToReport, SharedKeyOf)) == []
  {
    UniqueKeysOnceUrisAccepted(b);
    RerunConditions(db, b);
    MergedRowsAsScripted(db.sharedFields, b.fields, SharedUpdateJoin, SharedKeyOf, SharedScope(uris));
    SettledRowsReportNothing(db.sharedFields, MergedShared(db.sharedFields, b.fields, uris), b.fields, SharedUpdateJoin, SharedKeyOf,
                             SharedScope(uris), b.invariantFieldsToReport);
  }

  /** The UnversionedFields change set against the merged UnversionedFields table is empty after the filter. */
  lemma SettledUnversionedReportsNothing(db: Db, b: Batch, uris: set<Uri>)
    requires WellKeyed(b) && TouchedUris(b.fields, b.uriMarkerFieldId) == Success(uris)
    requires JoinsOnlyOwnKey(db.unversionedFields, b.fields, UnversionedUpdateJoin, UnversionedKeyOf)
    requires ReportListsMatchPartitions(b) && NoNullValues(db, b)
    ensures UniquePartitionKeys(b.fields, UnversionedKeyOf)
    ensures WithoutUnchanged(FieldChanges(MergedUnversioned(db.unversionedFields, b.fields, uris), b.fields, b.langVariantFieldsToReport, UnversionedKeyOf)) == []
  {
    UniqueKeysOnceUrisAccepted(b);
    RerunConditions(db, b);
    MergedRowsAsScripted(db.unversionedFields, b.fields, UnversionedUpdateJoin, UnversionedKeyOf, UnversionedScope(uris));
    SettledRowsReportNothing(db.unversionedFields, MergedUnversioned(db.unversionedFields, b.fields, uris), b.fields, UnversionedUpdateJoin, UnversionedKeyOf,
                             UnversionedScope(uris), b.langVariantFieldsToReport);
  }

  /** The VersionedFields change set against the merged VersionedFields table is empty after the filter. */
  lemma SettledVersionedReportsNothing(db: Db, b: Batch, uris: set<Uri>)
    requires WellKeyed(b) && TouchedUris(b.fields, b.uriMarkerFieldId) == Success(uris)
    requires ReportListsMatchPartitions(b) && NoNullValues(db, b)
    ensures UniquePartitionKeys(b.fields, VersionedKeyOf)
    ensures WithoutUnchanged(FieldChanges(MergedVersioned(db.versionedFields, b.fields, uris), b.fields, b.variantFieldsToReport, VersionedKeyOf)) == []
  {
    UniqueKeysOnceUrisAccepted(b);
    RerunConditions(db, b);
    MergedRowsAsScripted(db.versionedFields, b.fields, VersionedUpdateJoin, VersionedKeyOf, VersionedScope(uris));
    VersionedJoinsOnlyOwnKey(db.versionedFields, b.fields);
    SettledRowsReportNothing(db.versionedFields, MergedVersioned(db.versionedFields, b.fields, uris), b.fields, VersionedUpdateJoin, VersionedKeyOf,
                             VersionedScope(uris), b.variantFieldsToReport);
  }

  // ---------- behaviours of the script as written ----------

  /**
    An UPDATE compares Values with `<>`, which is never true against NULL: a stored row with
    a NULL Value that survives the merge of its partition keeps its Value, whatever the
    batch brings.
  */
  lemma NullStoredValueNeverUpdated<K>(table: map<K, FieldRow>, merged: map<K, FieldRow>, fields: seq<FieldData>,
                                       joins: (K, FieldData) -> bool, keyOf: FieldData -> Option<K>, inScope: K -> bool)
    requires MergedAsScripted(table, merged, fields, joins, keyOf, inScope)
    ensures forall k :: k in table && k in merged && table[k].value.None? ==> merged[k] == table[k]
  {
  }

  /**
    So merging does not settle a NULL stored Value: against the merged table, the row of an
    incoming non-NULL Value under that key is reported Updated from NULL.
  */
  lemma NullRowReportedUpdated<K>(table: map<K, FieldRow>, merged: map<K, FieldRow>, fields: seq<FieldData>,
                                  joins: (K, FieldData) -> bool, keyOf: FieldData -> Option<K>, inScope: K -> bool,
                                  report: set<Guid>, f: FieldData)
    requires MergedAsScripted(table, merged, fields, joins, keyOf, inScope)
    requires f in fields && f.fieldId in report && f.value.Some?
    requires keyOf(f).Some? && keyOf(f).value in table && table[keyOf(f).value].value.None?
    ensures FieldChange(f.itemId, f.fieldId, f.language, f.version, f.value, None, Updated)
            in WithoutUnchanged(FieldChanges(merged, fields, report, keyOf))
  {
    assert keyOf(f).value in merged && merged[keyOf(f).value] == table[keyOf(f).value];
    var rows := FieldChanges(merged, fields, report, keyOf);
    FieldChangesRows(merged, fields, report, keyOf);
    assert f in Reported(fields, report);
    var i :| 0 <= i < |rows| && Reported(fields, report)[i] == f;
    assert rows[i] == FieldChange(f.itemId, f.fieldId, f.language, f.version, f.value, None, Updated);
  }

  /**
    A versioned field stored with a NULL Value is reported Updated again by the next run of a
    batch that brings a Value for it: rerunning is not idempotent in general.
  */
  lemma NullStoredValueReportedAgain(db: Db, b: Batch, f: FieldData)
    requires WellKeyed(b) && Run(db, b).Success? && b.calculateChanges
    requires f in b.fields && f.fieldId in b.variantFieldsToReport && f.value.Some?
    requires VersionedKeyOf(f).Some? && VersionedKeyOf(f).value in db.versionedFields
    requires db.versionedFields[VersionedKeyOf(f).value].value.None?
    ensures AddOrUpdate(Run(db, b).value.db, b).Success?
    ensures FieldChange(f.itemId, f.fieldId, f.language, f.version, f.value, None, Updated)
            in AddOrUpdate(Run(db, b).value.db, b).value.1.fieldChanges
  {
    var uris := TouchedUris(b.fields, b.uriMarkerFieldId).value;
    RunSucceeds(db, b, uris);
    var once := Run(db, b).value.db;
    ChangeReportOfRun(once, b);
    MergedRowsAsScripted(db.versionedFields, b.fields, VersionedUpdateJoin, VersionedKeyOf, VersionedScope(uris));
    NullRowReportedUpdated(db.versionedFields, once.versionedFields, b.fields, VersionedUpdateJoin, VersionedKeyOf,
                           VersionedScope(uris), b.variantFieldsToReport, f);
    InReportedFieldChanges(once, b, FieldChange(f.itemId, f.fieldId, f.language, f.version, f.value, None, Updated));
  }

  /**
    The SharedFields UPDATE joins on (ItemId, FieldId) alone: an incoming row of another
    partition, when it is the only one joining a stored Shared row and its Value differs from
    a non-NULL stored Value, overwrites that row's Value; unless its item is touched, the row then survives the DELETE.
  */
  lemma SharedRowTakesOtherPartitionValue(db: Db, b: Batch, k: SharedKey, f: FieldData)
    requires WellKeyed(b) && Run(db, b).Success?
    requires k in db.sharedFields && f in b.fields && SharedUpdateJoin(k, f) && f.language.Some?
    requires SqlNe(db.sharedFields[k].value, f.value)
    requires forall g :: g in b.fields && SharedUpdateJoin(k, g) ==> g == f
    requires !ItemMarked(b, k.itemId)
    ensures k in Run(db, b).value.db.sharedFields
    ensures Run(db, b).value.db.sharedFields[k] == OverwriteField(db.sharedFields[k], f)
  {
    SharedFieldsMerged(db, b);
  }

  /**
    Merging SharedFields is not idempotent once a row of another partition also joins: a
    stored "0", then a shared row bringing "1" and an unversioned row bringing "2" for the
    same (ItemId, FieldId). The first merge writes "1" (the first joining row whose Value
    differs); the second finds "1" and writes "2".
  */
  lemma SharedMergeNotSettled(k: SharedKey, stored: FieldRow, s: FieldData, v: FieldData, uris: set<Uri>)
    requires stored.value == Some("0")
    requires s.itemId == k.itemId && s.fieldId == k.fieldId && s.language.None? && s.version.None? && s.value == Some("1")
    requires v.itemId == k.itemId && v.fieldId == k.fieldId && v.language.Some? && v.version.None? && v.value == Some("2")
    ensures UniquePartitionKeys([s, v], SharedKeyOf)
    ensures MergedShared(map[k := stored], [s, v], uris) == map[k := OverwriteField(stored, s)]
    ensures MergedShared(MergedShared(map[k := stored], [s, v], uris), [s, v], uris) == map[k := OverwriteField(stored, v)]
  {
    FirstSharedMerge(k, stored, s, v, uris);
    SecondSharedMerge(k, OverwriteField(stored, s), s, v, uris);
    assert OverwriteField(OverwriteField(stored, s), v) == OverwriteField(stored, v);
  }

  /** The first merge: both incoming rows join and differ, and the first, the shared row, is written. */
  lemma FirstSharedMerge(k: SharedKey, stored: FieldRow, s: FieldData, v: FieldData, uris: set<Uri>)
    requires SqlNe(stored.value, s.value)
    requires s.itemId == k.itemId && s.fieldId == k.fieldId && s.language.None? && s.version.None?
    requires v.itemId == k.itemId && v.fieldId == k.fieldId && v.language.Some?
    ensures UniquePartitionKeys([s, v], SharedKeyOf)
    ensures MergedShared(map[k := stored], [s, v], uris) == map[k := OverwriteField(stored, s)]
  {
    var fields := [s, v];
    assert SharedKeyOf(s) == Some(k) && SharedKeyOf(v).None?;
    FirstJoiningRowWrites(map[k := stored], fields, SharedUpdateJoin, k);
    UpdateRowsEffect(map[k := stored], fields, SharedUpdateJoin);
    OnlyUpdateWrites(map[k := stored], fields, uris, k);
  }

  /** The second merge: only the other-partition row still differs, so it is written. */
  lemma SecondSharedMerge(k: SharedKey, row: FieldRow, s: FieldData, v: FieldData, uris: set<Uri>)
    requires row.value == s.value && SqlNe(row.value, v.value)
    requires s.itemId == k.itemId && s.fieldId == k.fieldId && s.language.None? && s.version.None?
    requires v.itemId == k.itemId && v.fieldId == k.fieldId && v.language.Some?
    ensures UniquePartitionKeys([s, v], SharedKeyOf)
    ensures MergedShared(map[k := row], [s, v], uris) == map[k := OverwriteField(row, v)]
  {
    var fields := [s, v];
    var table := map[k := row];
    assert SharedKeyOf(s) == Some(k) && SharedKeyOf(v).None?;
    UpdateRowsEffect(table, fields, SharedUpdateJoin);
    assert v in fields && SharedUpdateJoin(k, v) && SqlNe(table[k].value, v.value);
    var g :| g in fields && SharedUpdateJoin(k, g) && SqlNe(table[k].value, g.value)
             && UpdateRows(table, fields, SharedUpdateJoin)[k] == OverwriteField(table[k], g);
    assert g == v;
    OnlyUpdateWrites(table, fields, uris, k);
  }

  /**
    When the incoming rows of the Shared partition all have the one stored key, the INSERT and
    the DELETE leave what the UPDATE wrote.
  */
  lemma OnlyUpdateWrites(table: map<SharedKey, FieldRow>, fields: seq<FieldData>, uris: set<Uri>, k: SharedKey)
    requires UniquePartitionKeys(fields, SharedKeyOf)
    requires table.Keys == {k}
    requires exists f :: f in fields && SharedKeyOf(f) == Some(k)
    requires forall f :: f in fields && SharedKeyOf(f).Some? ==> SharedKeyOf(f).value == k
    ensures MergedShared(table, fields, uris) == UpdateRows(table, fields, SharedUpdateJoin)
  {
    var updated := UpdateRows(table, fields, SharedUpdateJoin);
    UpdateRowsEffect(table, fields, SharedUpdateJoin);
    InsertRowsSettled(updated, fields, SharedKeyOf);
    DeleteRowsSettled(updated, fields, SharedKeyOf, SharedScope(uris));
  }

  /** Where the first incoming row joins a stored row and differs from it, the UPDATE writes that row's values. */
  lemma FirstJoiningRowWrites<K>(table: map<K, FieldRow>, fields: seq<FieldData>, joins: (K, FieldData) -> bool, k: K)
    requires k in table && |fields| > 0 && joins(k, fields[0]) && SqlNe(table[k].value, fields[0].value)
    ensures UpdateRows(table, fields, joins)[k] == OverwriteField(table[k], fields[0])
  {
  }

  /** A batch without marker rows touches nothing. */
  lemma {:induction false} NoMarkersTouchNothing(fields: seq<FieldData>, marker: Guid)
    requires forall f :: f in fields ==> f.fieldId != marker
    ensures TouchedUris(fields, marker) == Success({})
    decreases |fields|
  {
    if |fields| > 0 {
      assert forall f :: f in fields[1..] ==> f in fields;
      NoMarkersTouchNothing(fields[1..], marker);
    }
  }

  /**
    So the condition of `RerunLeavesTables` is needed: with the batch above and no marker row,
    the second run leaves a different SharedFields table from the first.
  */
  lemma RerunChangesSharedFields(db: Db, b: Batch, k: SharedKey, stored: FieldRow, s: FieldData, v: FieldData)
    requires db.sharedFields == map[k := stored] && stored.value == Some("0")
    requires b.items == [] && b.fields == [s, v] && b.uriMarkerFieldId != s.fieldId
    requires s.itemId == k.itemId && s.fieldId == k.fieldId && s.language.None? && s.version.None? && s.value == Some("1")
    requires v.itemId == k.itemId && v.fieldId == k.fieldId && v.language.Some? && v.version.None? && v.value == Some("2")
    ensures WellKeyed(b) && Run(db, b).Success? && Run(Run(db, b).value.db, b).Success?
    ensures Run(db, b).value.db.sharedFields == map[k := OverwriteField(stored, s)]
    ensures Run(Run(db, b).value.db, b).value.db.sharedFields == map[k := OverwriteField(stored, v)]
  {
    NoMarkersTouchNothing(b.fields, b.uriMarkerFieldId);
    RunSucceeds(db, b, {});
    RunSucceeds(Run(db, b).value.db, b, {});
    SharedMergeNotSettled(k, stored, s, v, {});
  }

  /**
    The UnversionedFields UPDATE ignores the incoming Version: a versioned incoming row, when
    it is the only one joining a stored Unversioned row and its Value differs from a non-NULL
    stored Value, overwrites that row's Value; unless
    its language is touched, the row then survives the DELETE.
  */
  lemma UnversionedRowTakesVersionedValue(db: Db, b: Batch, k: UnversionedKey, f: FieldData)
    requires WellKeyed(b) && Run(db, b).Success?
    requires k in db.unversionedFields && f in b.fields && UnversionedUpdateJoin(k, f) && f.version.Some?
    requires SqlNe(db.unversionedFields[k].value, f.value)
    requires forall g :: g in b.fields && UnversionedUpdateJoin(k, g) ==> g == f
    requires !LanguageMarked(b, k.itemId, k.language)
    ensures k in Run(db, b).value.db.unversionedFields
    ensures Run(db, b).value.db.unversionedFields[k] == OverwriteField(db.unversionedFields[k], f)
  {
    UnversionedFieldsMerged(db, b);
  }
}
