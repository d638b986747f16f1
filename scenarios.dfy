/**
  Four small batches against small stored tables, stated on the statements they exercise: a
  new item, a renamed item, a shared field submitted with its stored value, and a versioned
  field removed by a marker row. `ChangeReportOfRun`, `ItemsMerged` and `RunSucceeds` carry
  these over to a whole call.
*/
module Scenarios {
  import opened Wrappers
  import opened Entities
  import opened Statements
  import opened ChangeReport
  import opened Provider
  import opened MergeProperties

  /** A new item "Home" with no stored row is inserted and reported Created with no original name. */
  lemma NewItemReportedCreated(n: ItemData, t1: Guid)
    requires n.name == Some("Home") && n.templateId == Some(t1) && n.masterId.None? && n.parentId.None?
    ensures ItemChanges(map[], [n])
            == [ItemChange(n.id, ItemCreated, None, Some("Home"), None, Some(t1), None, None, None, None)]
    ensures MergedItems(map[], [n]) == map[n.id := NewItemRow(n)]
  {
    ItemChangesRows(map[], [n]);
    MergedItemsAsScripted(map[], [n]);
  }

  /** Renaming a stored item "Home" to "Home2" overwrites its row and reports it Updated from "Home". */
  lemma RenamedItemReportedUpdated(n: ItemData, t1: Guid, stored: ItemRow)
    requires stored == ItemRow(Some("Home"), Some(t1), None, None, stored.created, stored.updated)
    requires n.name == Some("Home2") && n.templateId == Some(t1) && n.masterId.None? && n.parentId.None?
    ensures ItemChanges(map[n.id := stored], [n])
            == [ItemChange(n.id, ItemUpdated, Some("Home"), Some("Home2"), None, Some(t1), None, None, None, None)]
    ensures MergedItems(map[n.id := stored], [n])
            == map[n.id := ItemRow(Some("Home2"), Some(t1), None, None, stored.created, n.updated)]
  {
    ItemChangesRows(map[n.id := stored], [n]);
    MergedItemsAsScripted(map[n.id := stored], [n]);
    assert ItemDiffers(stored, n);
  }

  /**
    A shared field submitted with the Value it has in storage, its FieldId on the Shared report
    list: the change row is Unchanged and falls to the filter, and SharedFields is left as it
    was whatever the touched items.
  */
  lemma UnchangedSharedFieldNotReported(f: FieldData, stored: FieldRow, uris: set<Uri>)
    requires f.language.None? && f.version.None? && f.value == Some("1") && stored.value == Some("1")
    ensures UniquePartitionKeys([f], SharedKeyOf)
    ensures WithoutUnchanged(FieldChanges(map[SharedKey(f.itemId, f.fieldId) := stored], [f], {f.fieldId}, SharedKeyOf)) == []
    ensures MergedShared(map[SharedKey(f.itemId, f.fieldId) := stored], [f], uris)
            == map[SharedKey(f.itemId, f.fieldId) := stored]
  {
    var table := map[SharedKey(f.itemId, f.fieldId) := stored];
    MergedRowsAsScripted(table, [f], SharedUpdateJoin, SharedKeyOf, SharedScope(uris));
    SameValueKept(table, MergedShared(table, [f], uris), f, stored, SharedScope(uris));
    var rows := FieldChanges(table, [f], {f.fieldId}, SharedKeyOf);
    FieldChangesRows(table, [f], {f.fieldId}, SharedKeyOf);
    assert Reported([f], {f.fieldId})[0] == f;
    assert rows == [FieldChange(f.itemId, f.fieldId, None, None, Some("1"), Some("1"), Unchanged)];
  }

  /** The merge half, over any table merged as the script merges it. */
  lemma SameValueKept(table: map<SharedKey, FieldRow>, merged: map<SharedKey, FieldRow>, f: FieldData,
                      stored: FieldRow, inScope: SharedKey -> bool)
    requires f.language.None? && f.version.None? && f.value == stored.value
    requires table == map[SharedKey(f.itemId, f.fieldId) := stored]
    requires MergedAsScripted(table, merged, [f], SharedUpdateJoin, SharedKeyOf, inScope)
    ensures merged == table
  {
    var k := SharedKey(f.itemId, f.fieldId);
    assert SharedKeyOf(f) == Some(k);
    assert f in [f];
    assert k in merged && merged[k] == stored;
    assert merged.Keys == {k};
  }

  /** A batch whose one field row is a marker row touches exactly that row's triple. */
  lemma SingleMarkerTouches(m: FieldData)
    ensures TouchedUris([m], m.fieldId) == Success({UriOf(m)})
  {
    assert [m][1..] == [];
    assert TouchedUris([m][1..], m.fieldId) == Success({});
    assert {} + {UriOf(m)} == {UriOf(m)};
  }

  /**
    A marker row names (A, "en", 1) and the batch holds no other field: the stored field on
    version 1 is deleted, the one on version 2 is kept, and the marker row itself is inserted.
  */
  lemma TouchedVersionDeleted(m: FieldData, fid: Guid, r1: FieldRow, r2: FieldRow)
    requires fid != m.fieldId && m.language == Some("en") && m.version == Some(1)
    ensures TouchedUris([m], m.fieldId) == Success({Uri(m.itemId, Some("en"), Some(1))})
    ensures UniquePartitionKeys([m], VersionedKeyOf)
    ensures MergedVersioned(map[VersionedKey(m.itemId, fid, "en", 1) := r1, VersionedKey(m.itemId, fid, "en", 2) := r2],
                            [m], {Uri(m.itemId, Some("en"), Some(1))})
            == map[VersionedKey(m.itemId, fid, "en", 2) := r2, VersionedKey(m.itemId, m.fieldId, "en", 1) := NewFieldRow(m)]
  {
    SingleMarkerTouches(m);
    var uris := {Uri(m.itemId, Some("en"), Some(1))};
    var table := map[VersionedKey(m.itemId, fid, "en", 1) := r1, VersionedKey(m.itemId, fid, "en", 2) := r2];
    MergedRowsAsScripted(table, [m], VersionedUpdateJoin, VersionedKeyOf, VersionedScope(uris));
    VersionOneReplaced(table, MergedVersioned(table, [m], uris), m, fid, r1, r2, VersionedScope(uris));
  }

  /** The same, over any table merged as the script merges it. */
  lemma VersionOneReplaced(table: map<VersionedKey, FieldRow>, merged: map<VersionedKey, FieldRow>, m: FieldData,
                           fid: Guid, r1: FieldRow, r2: FieldRow, inScope: VersionedKey -> bool)
    requires fid != m.fieldId && m.language == Some("en") && m.version == Some(1)
    requires table == map[VersionedKey(m.itemId, fid, "en", 1) := r1, VersionedKey(m.itemId, fid, "en", 2) := r2]
    requires inScope(VersionedKey(m.itemId, fid, "en", 1)) && !inScope(VersionedKey(m.itemId, fid, "en", 2))
    requires MergedAsScripted(table, merged, [m], VersionedUpdateJoin, VersionedKeyOf, inScope)
    ensures merged == map[VersionedKey(m.itemId, fid, "en", 2) := r2, VersionedKey(m.itemId, m.fieldId, "en", 1) := NewFieldRow(m)]
  {
    var k1, k2, km := VersionedKey(m.itemId, fid, "en", 1), VersionedKey(m.itemId, fid, "en", 2),
                      VersionedKey(m.itemId, m.fieldId, "en", 1);
    assert VersionedKeyOf(m) == Some(km);
    assert m in [m];
    assert k1 !in merged;
    assert k2 in merged && merged[k2] == r2;
    assert km in merged && merged[km] == NewFieldRow(m);
    assert merged.Keys == {k2, km};
  }
}
