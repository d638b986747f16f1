/**
  The rows the batch merge reads and writes: the incoming item and field records (the
  table-valued parameters @Items and @Fields), the four stored tables (Items, SharedFields,
  UnversionedFields, VersionedFields) and the change records the report returns.

  Every column that SQL allows to be NULL is an Option. Comparisons written with `<>` or `=`
  in the merge script follow SQL's rule that a comparison with NULL is never true.
*/
module Entities {
  import opened Wrappers

  /** A uniqueidentifier column. */
  type Guid(==, !new)

  /** A datetime column; the merge only copies these. */
  type Timestamp(==, !new)

  /** A language name (an nvarchar column). */
  type Language = string

  // ---------- SQL comparisons ----------

  /** `a <> b` in a WHERE or CASE: true only when both sides are non-NULL and differ. */
  predicate SqlNe<T(==)>(a: Option<T>, b: Option<T>)
  {
    a.Some? && b.Some? && a.value != b.value
  }

  /** `a = b` in a WHERE or CASE: true only when both sides are non-NULL and equal. */
  predicate SqlEq<T(==)>(a: Option<T>, b: Option<T>)
  {
    a.Some? && b.Some? && a.value == b.value
  }

  // ---------- items ----------

  /** One row of the incoming @Items table. */
  datatype ItemData = ItemData(
    id: Guid,
    name: Option<string>,
    templateId: Option<Guid>,
    masterId: Option<Guid>,
    parentId: Option<Guid>,
    created: Timestamp,
    updated: Timestamp)

  /** One row of the stored Items table; the table is keyed by the item Id. */
  datatype ItemRow = ItemRow(
    name: Option<string>,
    templateId: Option<Guid>,
    masterId: Option<Guid>,
    parentId: Option<Guid>,
    created: Timestamp,
    updated: Timestamp)

  /** The WHERE clause of the item UPDATE: one of the four mutable columns differs. */
  predicate ItemDiffers(row: ItemRow, n: ItemData)
  {
    || SqlNe(row.name, n.name)
    || SqlNe(row.templateId, n.templateId)
    || SqlNe(row.parentId, n.parentId)
    || SqlNe(row.masterId, n.masterId)
  }

  /** The row the item INSERT writes for an incoming item. */
  function NewItemRow(n: ItemData): ItemRow
  {
    ItemRow(n.name, n.templateId, n.masterId, n.parentId, n.created, n.updated)
  }

  /** The row the item UPDATE leaves: the four mutable columns and Updated come from the batch. */
  function OverwriteItem(row: ItemRow, n: ItemData): ItemRow
  {
    ItemRow(n.name, n.templateId, n.masterId, n.parentId, row.created, n.updated)
  }

  // ---------- fields ----------

  /** One row of the incoming @Fields table, of any partition. */
  datatype FieldData = FieldData(
    id: Guid,
    itemId: Guid,
    fieldId: Guid,
    language: Option<Language>,
    version: Option<int>,
    value: Option<string>,
    created: Timestamp,
    updated: Timestamp)

  /** One stored field row; the key columns live in the key of the table's map. */
  datatype FieldRow = FieldRow(id: Guid, value: Option<string>, created: Timestamp, updated: Timestamp)

  datatype SharedKey = SharedKey(itemId: Guid, fieldId: Guid)

  datatype UnversionedKey = UnversionedKey(itemId: Guid, fieldId: Guid, language: Language)

  datatype VersionedKey = VersionedKey(itemId: Guid, fieldId: Guid, language: Language, version: int)

  /** The four key columns of an incoming field row, NULLs included. */
  datatype FieldKey = FieldKey(itemId: Guid, fieldId: Guid, language: Option<Language>, version: Option<int>)

  function KeyOf(f: FieldData): FieldKey
  {
    FieldKey(f.itemId, f.fieldId, f.language, f.version)
  }

  /** The three stored partitions, told apart by the nullability of Language and Version. */
  datatype Partition = Shared | Unversioned | Versioned

  /**
    The partition whose INSERT takes an incoming row; a row with a Version and no Language has
    none. Its ensures only name the match arms; `PartitionRouting` is the contract that ties
    it to the three INSERT filters.
  */
  function PartitionOf(f: FieldData): (p: Option<Partition>)
    ensures p == Some(Shared) <==> f.language.None? && f.version.None?
    ensures p == Some(Unversioned) <==> f.language.Some? && f.version.None?
    ensures p == Some(Versioned) <==> f.language.Some? && f.version.Some?
  {
    match (f.language, f.version)
    case (None, None) => Some(Shared)
    case (Some(_), None) => Some(Unversioned)
    case (Some(_), Some(_)) => Some(Versioned)
    case (None, Some(_)) => None
  }

  /** The SharedFields key of an incoming row of the Shared partition. */
  function SharedKeyOf(f: FieldData): Option<SharedKey>
  {
    if f.language.None? && f.version.None? then Some(SharedKey(f.itemId, f.fieldId)) else None
  }

  /** The UnversionedFields key of an incoming row of the Unversioned partition. */
  function UnversionedKeyOf(f: FieldData): Option<UnversionedKey>
  {
    if f.language.Some? && f.version.None? then Some(UnversionedKey(f.itemId, f.fieldId, f.language.value)) else None
  }

  /** The VersionedFields key of an incoming row of the Versioned partition. */
  function VersionedKeyOf(f: FieldData): Option<VersionedKey>
  {
    if f.language.Some? && f.version.Some? then
      Some(VersionedKey(f.itemId, f.fieldId, f.language.value, f.version.value))
    else None
  }

  /**
    The three INSERT filters route an incoming row to the partition `PartitionOf` names: a row
    gets a key in a partition exactly when it belongs to it, so it is inserted into at most
    one partition, and a row with a Version but no Language into none.
  */
  lemma PartitionRouting(f: FieldData)
    ensures SharedKeyOf(f).Some? <==> PartitionOf(f) == Some(Shared)
    ensures UnversionedKeyOf(f).Some? <==> PartitionOf(f) == Some(Unversioned)
    ensures VersionedKeyOf(f).Some? <==> PartitionOf(f) == Some(Versioned)
    ensures PartitionOf(f).None? <==> SharedKeyOf(f).None? && UnversionedKeyOf(f).None? && VersionedKeyOf(f).None?
    ensures SharedKeyOf(f).Some? ==> SharedKeyOf(f).value == SharedKey(f.itemId, f.fieldId)
    ensures UnversionedKeyOf(f).Some? ==> UnversionedKeyOf(f).value == UnversionedKey(f.itemId, f.fieldId, f.language.value)
    ensures VersionedKeyOf(f).Some? ==>
      VersionedKeyOf(f).value == VersionedKey(f.itemId, f.fieldId, f.language.value, f.version.value)
  {
  }

  /** The row an INSERT writes for an incoming field row. */
  function NewFieldRow(f: FieldData): FieldRow
  {
    FieldRow(f.id, f.value, f.created, f.updated)
  }

  /** The row a field UPDATE leaves: Value and Updated come from the batch. */
  function OverwriteField(row: FieldRow, f: FieldData): FieldRow
  {
    row.(value := f.value, updated := f.updated)
  }

  // ---------- touched URIs ----------

  /** A row of the @Uris table variable. */
  datatype Uri = Uri(id: Guid, language: Option<Language>, version: Option<int>)

  function UriOf(f: FieldData): Uri
  {
    Uri(f.itemId, f.language, f.version)
  }

  // ---------- change records ----------

  datatype ItemEditType = ItemCreated | ItemUpdated

  datatype FieldEditType = Created | Updated | Unchanged

  /** One row of the item change result set. */
  datatype ItemChange = ItemChange(
    id: Guid,
    editType: ItemEditType,
    originalName: Option<string>,
    newName: Option<string>,
    originalTemplateId: Option<Guid>,
    newTemplateId: Option<Guid>,
    originalMasterId: Option<Guid>,
    newMasterId: Option<Guid>,
    originalParentId: Option<Guid>,
    newParentId: Option<Guid>)

  /** One row of a field change result set. */
  datatype FieldChange = FieldChange(
    itemId: Guid,
    fieldId: Guid,
    language: Option<Language>,
    version: Option<int>,
    value: Option<string>,
    originalValue: Option<string>,
    editType: FieldEditType)

  // ---------- the call ----------

  /** The arguments of one AddOrUpdateVariants call. */
  datatype Batch = Batch(
    items: seq<ItemData>,
    fields: seq<FieldData>,
    uriMarkerFieldId: Guid,
    calculateChanges: bool,
    invariantFieldsToReport: set<Guid>,
    langVariantFieldsToReport: set<Guid>,
    variantFieldsToReport: set<Guid>)

  /** No two incoming items share an Id. */
  ghost predicate UniqueItemIds(items: seq<ItemData>)
  {
    forall i, j :: 0 <= i < |items| && 0 <= j < |items| && items[i].id == items[j].id ==> i == j
  }

  /** No two incoming field rows share their four key columns. */
  ghost predicate UniqueFieldKeys(fields: seq<FieldData>)
  {
    forall i, j :: 0 <= i < |fields| && 0 <= j < |fields| && KeyOf(fields[i]) == KeyOf(fields[j]) ==> i == j
  }

  /**
    What a caller must supply: unique item Ids, and unique field keys except possibly among
    the marker rows, whose duplicates the merge itself rejects.
  */
  ghost predicate WellKeyed(b: Batch)
  {
    && UniqueItemIds(b.items)
    && forall i, j ::
         0 <= i < |b.fields| && 0 <= j < |b.fields| && i != j && KeyOf(b.fields[i]) == KeyOf(b.fields[j])
         ==> b.fields[i].fieldId == b.uriMarkerFieldId
  }

  /** The stored state: the four tables. */
  datatype Db = Db(
    items: map<Guid, ItemRow>,
    sharedFields: map<SharedKey, FieldRow>,
    unversionedFields: map<UnversionedKey, FieldRow>,
    versionedFields: map<VersionedKey, FieldRow>)
}
