/**
  The statements of the merge script, one function per statement, each over the table it
  reads or writes. The script is set-based: every statement reads a snapshot of its target
  table and of the batch and produces the new table (or a result set) at once.

  Where an UPDATE ... FROM joins one stored row to several incoming rows that pass its WHERE
  clause, SQL Server writes the values of one of them without saying which. The contracts
  below say exactly that ("some joining row"); the bodies take the first in batch order.
*/
module Statements {
  import opened Wrappers
  import opened Entities

  /** The error the script's CATCH block re-raises. */
  datatype ScriptError = DuplicateUri(uri: Uri)

  /** The first element of `s` that satisfies `p`. */
  function Find<T>(s: seq<T>, p: T -> bool): (r: Option<T>)
    ensures r.Some? ==> r.value in s && p(r.value)
    ensures r.None? ==> forall x :: x in s ==> !p(x)
    decreases |s|
  {
    if |s| == 0 then None
    else if p(s[0]) then Some(s[0])
    else Find(s[1..], p)
  }

  // ---------- @Uris ----------

  /** Two different marker rows carry the same (ItemId, Language, Version) triple. */
  ghost predicate MarkerUriRepeats(fields: seq<FieldData>, marker: Guid, u: Uri)
  {
    exists i, j ::
      && 0 <= i < |fields| && 0 <= j < |fields| && i != j
      && fields[i].fieldId == marker && fields[j].fieldId == marker
      && UriOf(fields[i]) == u && UriOf(fields[j]) == u
  }

  /**
    The INSERT into the @Uris table variable: the triples of the marker rows. The table has a
    UNIQUE constraint on all three columns (under which two NULLs are equal), so a repeated
    triple fails the statement and the script goes to its CATCH block.
  */
  function TouchedUris(fields: seq<FieldData>, marker: Guid): (r: Result<set<Uri>, ScriptError>)
    ensures r.Success? <==> forall u :: !MarkerUriRepeats(fields, marker, u)
    ensures r.Failure? ==> MarkerUriRepeats(fields, marker, r.error.uri)
    ensures r.Success? ==>
      forall u :: u in r.value <==> exists f :: f in fields && f.fieldId == marker && UriOf(f) == u
    decreases |fields|
  {
    if |fields| == 0 then Success({})
    else
      var rest := TouchedUris(fields[1..], marker);
      TouchedUrisStep(fields, marker);
      if rest.Failure? then rest
      else if fields[0].fieldId != marker then rest
      else if UriOf(fields[0]) in rest.value then
        assert MarkerUriRepeats(fields, marker, UriOf(fields[0]));
        Failure(DuplicateUri(UriOf(fields[0])))
      else Success(rest.value + {UriOf(fields[0])})
  }

  /** How the repeat predicate of a batch follows from that of its tail. */
  lemma TouchedUrisStep(fields: seq<FieldData>, marker: Guid)
    requires |fields| > 0
    ensures forall u ::
      MarkerUriRepeats(fields, marker, u) <==>
        || MarkerUriRepeats(fields[1..], marker, u)
        || (fields[0].fieldId == marker && UriOf(fields[0]) == u &&
            exists f :: f in fields[1..] && f.fieldId == marker && UriOf(f) == u)
  {
    var tail := fields[1..];
    forall u | MarkerUriRepeats(fields, marker, u)
      ensures || MarkerUriRepeats(tail, marker, u)
              || (fields[0].fieldId == marker && UriOf(fields[0]) == u &&
                  exists f :: f in tail && f.fieldId == marker && UriOf(f) == u)
    {
      var i, j :| && 0 <= i < |fields| && 0 <= j < |fields| && i != j
                  && fields[i].fieldId == marker && fields[j].fieldId == marker
                  && UriOf(fields[i]) == u && UriOf(fields[j]) == u;
      if i == 0 {
        assert tail[j - 1] == fields[j];
      } else if j == 0 {
        assert tail[i - 1] == fields[i];
      } else {
        assert tail[i - 1] == fields[i] && tail[j - 1] == fields[j];
      }
    }
    forall u | (fields[0].fieldId == marker && UriOf(fields[0]) == u &&
                exists f :: f in tail && f.fieldId == marker && UriOf(f) == u)
      ensures MarkerUriRepeats(fields, marker, u)
    {
      var f :| f in tail && f.fieldId == marker && UriOf(f) == u;
      var k :| 0 <= k < |tail| && tail[k] == f;
      assert fields[k + 1] == f;
    }
    forall u | MarkerUriRepeats(tail, marker, u)
      ensures MarkerUriRepeats(fields, marker, u)
    {
      var i, j :| && 0 <= i < |tail| && 0 <= j < |tail| && i != j
                  && tail[i].fieldId == marker && tail[j].fieldId == marker
                  && UriOf(tail[i]) == u && UriOf(tail[j]) == u;
      assert fields[i + 1] == tail[i] && fields[j + 1] == tail[j];
    }
  }

  // ---------- items ----------

  /** A column of the LEFT JOINed stored row; NULL when no stored row matched. */
  function StoredItem(db: map<Guid, ItemRow>, id: Guid): Option<ItemRow>
  {
    if id in db then Some(db[id]) else None
  }

  /** `CASE WHEN dbItem.C <> newItem.C THEN dbItem.C ELSE NULL END`. */
  function Original<T(==)>(stored: Option<T>, incoming: Option<T>): Option<T>
  {
    if SqlNe(stored, incoming) then stored else None
  }

  function ItemChangeOf(stored: Option<ItemRow>, n: ItemData): ItemChange
  {
    var name := if stored.Some? then stored.value.name else None;
    var template := if stored.Some? then stored.value.templateId else None;
    var master := if stored.Some? then stored.value.masterId else None;
    var parent := if stored.Some? then stored.value.parentId else None;
    ItemChange(
      n.id,
      if stored.None? then ItemCreated else ItemUpdated,
      Original(name, n.name), n.name,
      Original(template, n.templateId), n.templateId,
      Original(master, n.masterId), n.masterId,
      Original(parent, n.parentId), n.parentId)
  }

  /** The item change result set: @Items LEFT JOIN Items on Id, one row per incoming item. */
  function ItemChanges(db: map<Guid, ItemRow>, batch: seq<ItemData>): seq<ItemChange>
  {
    seq(|batch|, i requires 0 <= i < |batch| => ItemChangeOf(StoredItem(db, batch[i].id), batch[i]))
  }

  /**
    The item change rows: one per incoming item, in order. An item is Created exactly when it
    has no stored row; an original value is reported exactly when the stored and incoming
    values are both non-NULL and differ, and is then the stored one; every new value is the
    incoming one.
  */
  lemma ItemChangesRows(db: map<Guid, ItemRow>, batch: seq<ItemData>)
    ensures |ItemChanges(db, batch)| == |batch|
    ensures forall i :: 0 <= i < |batch| ==>
      var c := ItemChanges(db, batch)[i];
      && c.id == batch[i].id
      && (c.editType == ItemCreated <==> batch[i].id !in db)
      && c.newName == batch[i].name
      && c.newTemplateId == batch[i].templateId
      && c.newMasterId == batch[i].masterId
      && c.newParentId == batch[i].parentId
    ensures forall i :: 0 <= i < |batch| ==>
      var c := ItemChanges(db, batch)[i];
      var id := batch[i].id;
      && (c.originalName.Some? <==> id in db && SqlNe(db[id].name, batch[i].name))
      && (c.originalTemplateId.Some? <==> id in db && SqlNe(db[id].templateId, batch[i].templateId))
      && (c.originalMasterId.Some? <==> id in db && SqlNe(db[id].masterId, batch[i].masterId))
      && (c.originalParentId.Some? <==> id in db && SqlNe(db[id].parentId, batch[i].parentId))
    ensures forall i :: 0 <= i < |batch| && batch[i].id in db ==>
      var c := ItemChanges(db, batch)[i];
      var row := db[batch[i].id];
      && (c.originalName.Some? ==> c.originalName == row.name)
      && (c.originalTemplateId.Some? ==> c.originalTemplateId == row.templateId)
      && (c.originalMasterId.Some? ==> c.originalMasterId == row.masterId)
      && (c.originalParentId.Some? ==> c.originalParentId == row.parentId)
  {
  }

  /**
    The Items UPDATE: a stored item joined to an incoming one with a differing Name,
    TemplateID, ParentID or MasterID takes those four columns and Updated from it.
  */
  function UpdateItems(db: map<Guid, ItemRow>, batch: seq<ItemData>): map<Guid, ItemRow>
  {
    map id | id in db ::
      var row := db[id];
      match Find(batch, (n: ItemData) => n.id == id && ItemDiffers(row, n))
      case Some(n) => OverwriteItem(row, n)
      case None => row
  }

  /**
    What the Items UPDATE leaves: the same Ids; a stored item joined to an incoming one with a
    differing column is overwritten by some such incoming item and keeps its Created; every
    other stored item is left as it is.
  */
  lemma UpdateItemsEffect(db: map<Guid, ItemRow>, batch: seq<ItemData>)
    ensures UpdateItems(db, batch).Keys == db.Keys
    ensures forall id :: id in db && (exists n :: n in batch && n.id == id && ItemDiffers(db[id], n)) ==>
      exists n :: n in batch && n.id == id && ItemDiffers(db[id], n) && UpdateItems(db, batch)[id] == OverwriteItem(db[id], n)
    ensures forall id :: id in db && (forall n :: n in batch && n.id == id ==> !ItemDiffers(db[id], n)) ==>
      UpdateItems(db, batch)[id] == db[id]
    ensures forall id :: id in db ==> UpdateItems(db, batch)[id].created == db[id].created
  {
  }

  /** The Items INSERT: every incoming item without a stored row is added with all its columns. */
  function InsertItems(db: map<Guid, ItemRow>, batch: seq<ItemData>): map<Guid, ItemRow>
    requires UniqueItemIds(batch)
  {
    db + map i | 0 <= i < |batch| && batch[i].id !in db :: batch[i].id := NewItemRow(batch[i])
  }

  /** What the Items INSERT leaves: the stored Ids and the incoming ones; stored rows kept, new ones from the batch. */
  lemma InsertItemsEffect(db: map<Guid, ItemRow>, batch: seq<ItemData>)
    requires UniqueItemIds(batch)
    ensures InsertItems(db, batch).Keys == db.Keys + (set n | n in batch :: n.id)
    ensures forall id :: id in db ==> InsertItems(db, batch)[id] == db[id]
    ensures forall n :: n in batch && n.id !in db ==> InsertItems(db, batch)[n.id] == NewItemRow(n)
  {
  }

  // ---------- the three field partitions ----------

  /** The join of the SharedFields UPDATE: ItemId and FieldId only, whatever the incoming Language and Version. */
  predicate SharedUpdateJoin(k: SharedKey, f: FieldData)
  {
    f.itemId == k.itemId && f.fieldId == k.fieldId
  }

  /** The join of the UnversionedFields UPDATE: ItemId, FieldId and Language, whatever the incoming Version. */
  predicate UnversionedUpdateJoin(k: UnversionedKey, f: FieldData)
  {
    f.itemId == k.itemId && f.fieldId == k.fieldId && f.language == Some(k.language)
  }

  /** The join of the VersionedFields UPDATE: all four key columns. */
  predicate VersionedUpdateJoin(k: VersionedKey, f: FieldData)
  {
    f.itemId == k.itemId && f.fieldId == k.fieldId && f.language == Some(k.language) && f.version == Some(k.version)
  }

  /** The DELETE scope of SharedFields: the item is among the touched Ids. */
  predicate SharedInScope(uris: set<Uri>, k: SharedKey)
  {
    exists u :: u in uris && u.id == k.itemId
  }

  /** The DELETE scope of UnversionedFields: (ItemId, Language) is among the touched pairs. */
  predicate UnversionedInScope(uris: set<Uri>, k: UnversionedKey)
  {
    exists u :: u in uris && u.id == k.itemId && u.language == Some(k.language)
  }

  /** The DELETE scope of VersionedFields: exactly the touched triple. */
  predicate VersionedInScope(uris: set<Uri>, k: VersionedKey)
  {
    Uri(k.itemId, Some(k.language), Some(k.version)) in uris
  }

  /** A field UPDATE: a stored row joined to an incoming row whose Value differs takes Value and Updated from it. */
  function UpdateRows<K(==)>(db: map<K, FieldRow>, batch: seq<FieldData>, joins: (K, FieldData) -> bool)
    : map<K, FieldRow>
  {
    map k | k in db ::
      var row := db[k];
      match Find(batch, (f: FieldData) => joins(k, f) && SqlNe(row.value, f.value))
      case Some(f) => OverwriteField(row, f)
      case None => row
  }

  /**
    What a field UPDATE leaves: the same keys; a stored row joined to an incoming row whose
    Value differs (both non-NULL) takes Value and Updated from some such row and keeps its Id
    and Created; every other stored row is kept.
  */
  lemma UpdateRowsEffect<K>(db: map<K, FieldRow>, batch: seq<FieldData>, joins: (K, FieldData) -> bool)
    ensures UpdateRows(db, batch, joins).Keys == db.Keys
    ensures forall k :: k in db && (exists f :: f in batch && joins(k, f) && SqlNe(db[k].value, f.value)) ==>
      exists f :: f in batch && joins(k, f) && SqlNe(db[k].value, f.value) && UpdateRows(db, batch, joins)[k] == OverwriteField(db[k], f)
    ensures forall k :: k in db && (forall f :: f in batch && joins(k, f) ==> !SqlNe(db[k].value, f.value)) ==>
      UpdateRows(db, batch, joins)[k] == db[k]
  {
  }

  /** The incoming rows give distinct keys to the partition `keyOf` selects. */
  ghost predicate UniquePartitionKeys<K>(batch: seq<FieldData>, keyOf: FieldData -> Option<K>)
  {
    forall i, j :: 0 <= i < |batch| && 0 <= j < |batch| && keyOf(batch[i]).Some? && keyOf(batch[i]) == keyOf(batch[j])
      ==> i == j
  }

  /** A field INSERT: every incoming row of the partition (`keyOf` gives its key) whose key has no stored row is added. */
  function InsertRows<K(==)>(db: map<K, FieldRow>, batch: seq<FieldData>, keyOf: FieldData -> Option<K>)
    : map<K, FieldRow>
    requires UniquePartitionKeys(batch, keyOf)
  {
    db + map i | 0 <= i < |batch| && keyOf(batch[i]).Some? && keyOf(batch[i]).value !in db
           :: keyOf(batch[i]).value := NewFieldRow(batch[i])
  }

  /**
    What a field INSERT leaves: the stored keys and the keys of the incoming rows of the
    partition; stored rows are kept, a new key gets all the columns of its incoming row.
  */
  lemma InsertRowsEffect<K>(db: map<K, FieldRow>, batch: seq<FieldData>, keyOf: FieldData -> Option<K>)
    requires UniquePartitionKeys(batch, keyOf)
    ensures InsertRows(db, batch, keyOf).Keys == db.Keys + (set f | f in batch && keyOf(f).Some? :: keyOf(f).value)
    ensures forall k :: k in db ==> InsertRows(db, batch, keyOf)[k] == db[k]
    ensures forall f :: f in batch && keyOf(f).Some? && keyOf(f).value !in db ==>
      InsertRows(db, batch, keyOf)[keyOf(f).value] == NewFieldRow(f)
  {
  }

  /** A field DELETE: a stored row inside the touched scope with no incoming row of the partition under its key is removed. */
  function DeleteRows<K(==)>(db: map<K, FieldRow>, batch: seq<FieldData>, keyOf: FieldData -> Option<K>,
                             inScope: K -> bool): map<K, FieldRow>
  {
    map k | k in db && !(inScope(k) && forall f | f in batch :: keyOf(f) != Some(k)) :: db[k]
  }

  /** What a field DELETE leaves: a stored row is gone exactly when it is in scope and unmatched; the rest are kept. */
  lemma DeleteRowsEffect<K>(db: map<K, FieldRow>, batch: seq<FieldData>, keyOf: FieldData -> Option<K>,
                                inScope: K -> bool)
    ensures DeleteRows(db, batch, keyOf, inScope).Keys <= db.Keys
    ensures forall k :: k in DeleteRows(db, batch, keyOf, inScope) ==> DeleteRows(db, batch, keyOf, inScope)[k] == db[k]
    ensures forall k :: k in db ==>
      (k !in DeleteRows(db, batch, keyOf, inScope) <==> inScope(k) && forall f :: f in batch ==> keyOf(f) != Some(k))
  {
  }

  // ---------- field change result sets ----------

  /** The INNER JOIN with the report list: the incoming rows whose FieldId is to be reported. */
  function Reported(batch: seq<FieldData>, report: set<Guid>): (r: seq<FieldData>)
    ensures forall f :: f in r <==> f in batch && f.fieldId in report
    ensures |r| <= |batch|
    decreases |batch|
  {
    if |batch| == 0 then []
    else if batch[0].fieldId in report then [batch[0]] + Reported(batch[1..], report)
    else Reported(batch[1..], report)
  }

  /** The join keeps each reported row as often as it occurs in the batch, and no other row. */
  lemma {:induction false} ReportedCounts(batch: seq<FieldData>, report: set<Guid>)
    ensures forall f :: multiset(Reported(batch, report))[f] == if f.fieldId in report then multiset(batch)[f] else 0
    decreases |batch|
  {
    if |batch| > 0 {
      assert batch == [batch[0]] + batch[1..];
      ReportedCounts(batch[1..], report);
    }
  }

  /** The join keeps batch order: the rows of two consecutive stretches of the batch come out in turn. */
  lemma {:induction false} ReportedAppend(a: seq<FieldData>, b: seq<FieldData>, report: set<Guid>)
    ensures Reported(a + b, report) == Reported(a, report) + Reported(b, report)
    decreases |a|
  {
    if |a| == 0 {
      assert a + b == b;
    } else {
      assert (a + b)[1..] == a[1..] + b;
      ReportedAppend(a[1..], b, report);
    }
  }

  /** The LEFT OUTER JOIN of a field report with its stored table. */
  function StoredField<K(==)>(db: map<K, FieldRow>, key: Option<K>): Option<FieldRow>
  {
    if key.Some? && key.value in db then Some(db[key.value]) else None
  }

  /** The EditType CASE of a field report. */
  function Classify(stored: Option<FieldRow>, v: Option<string>): FieldEditType
  {
    if stored.None? then Created
    else if SqlEq(stored.value.value, v) then Unchanged
    else Updated
  }

  function FieldChangeOf(f: FieldData, stored: Option<FieldRow>): FieldChange
  {
    FieldChange(f.itemId, f.fieldId, f.language, f.version, f.value,
                if stored.Some? then stored.value.value else None,
                Classify(stored, f.value))
  }

  /** A field change result set: the reported incoming rows LEFT JOINed with the stored table. */
  function FieldChanges<K(==)>(db: map<K, FieldRow>, batch: seq<FieldData>, report: set<Guid>,
                               keyOf: FieldData -> Option<K>): seq<FieldChange>
  {
    var rows := Reported(batch, report);
    seq(|rows|, i requires 0 <= i < |rows| => FieldChangeOf(rows[i], StoredField(db, keyOf(rows[i]))))
  }

  /**
    The field change rows: one per incoming row whose FieldId is in the report list, matched
    to the stored row under the key `keyOf` gives it. A row is Created exactly when nothing
    matched, Unchanged exactly when both Values are non-NULL and equal, Updated otherwise;
    OriginalValue is the stored Value.
  */
  lemma FieldChangesRows<K>(db: map<K, FieldRow>, batch: seq<FieldData>, report: set<Guid>,
                            keyOf: FieldData -> Option<K>)
    ensures |FieldChanges(db, batch, report, keyOf)| == |Reported(batch, report)|
    ensures forall i :: 0 <= i < |FieldChanges(db, batch, report, keyOf)| ==>
      var c := FieldChanges(db, batch, report, keyOf)[i];
      var f := Reported(batch, report)[i];
      var matched := keyOf(f).Some? && keyOf(f).value in db;
      && c.itemId == f.itemId && c.fieldId == f.fieldId
      && c.language == f.language && c.version == f.version && c.value == f.value
      && c.originalValue == (if matched then db[keyOf(f).value].value else None)
      && (c.editType == Created <==> !matched)
      && (c.editType == Unchanged <==> matched && SqlEq(db[keyOf(f).value].value, f.value))
      && (c.editType == Unchanged ==> c.value == c.originalValue)
  {
  }
}
