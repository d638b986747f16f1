/**
  AddOrUpdateVariants and the merge script it runs (SupportSetItemVariants).

  `Run` is the whole script as one function of the stored tables and the batch: fill @Uris,
  then the item report, UPDATE and INSERT, then for Shared, Unversioned and Versioned fields
  in turn the report, UPDATE, INSERT and DELETE. `Store.SetItemVariants` performs the same
  statements one by one on the four tables of a `Store`.
*/
module Provider {
  import opened Wrappers
  import opened Entities
  import opened Statements
  import opened ChangeReport

  /** The tables after a successful script and the result sets it emitted, in order. */
  datatype Outcome = Outcome(db: Db, results: seq<ResultSet>)

  datatype ProviderError = ScriptFailed(scriptError: ScriptError) | ReaderFailed(readError: ReadError)

  function SharedScope(uris: set<Uri>): SharedKey -> bool
  {
    k => SharedInScope(uris, k)
  }

  function UnversionedScope(uris: set<Uri>): UnversionedKey -> bool
  {
    k => UnversionedInScope(uris, k)
  }

  function VersionedScope(uris: set<Uri>): VersionedKey -> bool
  {
    k => VersionedInScope(uris, k)
  }

  /** Once @Uris has accepted the marker rows, no two incoming field rows share a key. */
  lemma UniqueKeysOnceUrisAccepted(b: Batch)
    requires WellKeyed(b)
    requires TouchedUris(b.fields, b.uriMarkerFieldId).Success?
    ensures UniqueFieldKeys(b.fields)
    ensures UniquePartitionKeys(b.fields, SharedKeyOf)
    ensures UniquePartitionKeys(b.fields, UnversionedKeyOf)
    ensures UniquePartitionKeys(b.fields, VersionedKeyOf)
  {
    forall i, j | 0 <= i < |b.fields| && 0 <= j < |b.fields| && KeyOf(b.fields[i]) == KeyOf(b.fields[j])
      ensures i == j
    {
      if i != j {
        assert MarkerUriRepeats(b.fields, b.uriMarkerFieldId, UriOf(b.fields[i]));
      }
    }
  }

  /** The report sets are requested: CalculateChanges = 1 and the list is non-empty. */
  predicate Requested(b: Batch, report: set<Guid>)
  {
    b.calculateChanges && report != {}
  }

  /** The item UPDATE followed by the item INSERT. */
  function MergedItems(table: map<Guid, ItemRow>, items: seq<ItemData>): map<Guid, ItemRow>
    requires UniqueItemIds(items)
  {
    InsertItems(UpdateItems(table, items), items)
  }

  /** The UPDATE, INSERT and DELETE of one field partition, in the script's order. */
  function MergedRows<K>(table: map<K, FieldRow>, fields: seq<FieldData>, joins: (K, FieldData) -> bool,
                         keyOf: FieldData -> Option<K>, inScope: K -> bool): map<K, FieldRow>
    requires UniquePartitionKeys(fields, keyOf)
  {
    DeleteRows(InsertRows(UpdateRows(table, fields, joins), fields, keyOf), fields, keyOf, inScope)
  }

  /** The SharedFields statements. */
  function MergedShared(table: map<SharedKey, FieldRow>, fields: seq<FieldData>, uris: set<Uri>)
    : map<SharedKey, FieldRow>
    requires UniquePartitionKeys(fields, SharedKeyOf)
  {
    MergedRows(table, fields, SharedUpdateJoin, SharedKeyOf, SharedScope(uris))
  }

  /** The UnversionedFields statements. */
  function MergedUnversioned(table: map<UnversionedKey, FieldRow>, fields: seq<FieldData>, uris: set<Uri>)
    : map<UnversionedKey, FieldRow>
    requires UniquePartitionKeys(fields, UnversionedKeyOf)
  {
    MergedRows(table, fields, UnversionedUpdateJoin, UnversionedKeyOf, UnversionedScope(uris))
  }

  /** The VersionedFields statements. */
  function MergedVersioned(table: map<VersionedKey, FieldRow>, fields: seq<FieldData>, uris: set<Uri>)
    : map<VersionedKey, FieldRow>
    requires UniquePartitionKeys(fields, VersionedKeyOf)
  {
    MergedRows(table, fields, VersionedUpdateJoin, VersionedKeyOf, VersionedScope(uris))
  }

  /** The item change result set, emitted when CalculateChanges = 1. */
  function ItemReportSets(table: map<Guid, ItemRow>, b: Batch): seq<ResultSet>
  {
    if b.calculateChanges then [ItemChangeSet(ItemChanges(table, b.items))] else []
  }

  /** The Shared field change result set, emitted when requested. */
  function SharedReportSets(table: map<SharedKey, FieldRow>, b: Batch): seq<ResultSet>
  {
    if Requested(b, b.invariantFieldsToReport)
    then [FieldChangeSet(FieldChanges(table, b.fields, b.invariantFieldsToReport, SharedKeyOf))]
    else []
  }

  /** The Unversioned field change result set, emitted when requested. */
  function UnversionedReportSets(table: map<UnversionedKey, FieldRow>, b: Batch): seq<ResultSet>
  {
    if Requested(b, b.langVariantFieldsToReport)
    then [FieldChangeSet(FieldChanges(table, b.fields, b.langVariantFieldsToReport, UnversionedKeyOf))]
    else []
  }

  /** The Versioned field change result set, emitted when requested. */
  function VersionedReportSets(table: map<VersionedKey, FieldRow>, b: Batch): seq<ResultSet>
  {
    if Requested(b, b.variantFieldsToReport)
    then [FieldChangeSet(FieldChanges(table, b.fields, b.variantFieldsToReport, VersionedKeyOf))]
    else []
  }

  /** The result sets the script emits, each computed from its table as it was before the script's writes. */
  function ResultSets(db: Db, b: Batch): seq<ResultSet>
  {
    ItemReportSets(db.items, b) + SharedReportSets(db.sharedFields, b)
    + UnversionedReportSets(db.unversionedFields, b) + VersionedReportSets(db.versionedFields, b)
  }

  /** The merge script. */
  function Run(db: Db, b: Batch): Result<Outcome, ScriptError>
    requires WellKeyed(b)
  {
    match TouchedUris(b.fields, b.uriMarkerFieldId)
    case Failure(e) => Failure(e)
    case Success(uris) =>
      UniqueKeysOnceUrisAccepted(b);
      Success(Outcome(Db(MergedItems(db.items, b.items),
                         MergedShared(db.sharedFields, b.fields, uris),
                         MergedUnversioned(db.unversionedFields, b.fields, uris),
                         MergedVersioned(db.versionedFields, b.fields, uris)),
                      ResultSets(db, b)))
  }

  /** A run whose @Uris insert succeeds leaves the merged tables and emits the report sets of the tables as they were. */
  lemma RunSucceeds(db: Db, b: Batch, uris: set<Uri>)
    requires WellKeyed(b)
    requires TouchedUris(b.fields, b.uriMarkerFieldId) == Success(uris)
    ensures UniqueFieldKeys(b.fields)
    ensures UniquePartitionKeys(b.fields, SharedKeyOf)
    ensures UniquePartitionKeys(b.fields, UnversionedKeyOf)
    ensures UniquePartitionKeys(b.fields, VersionedKeyOf)
    ensures Run(db, b) == Success(Outcome(Db(MergedItems(db.items, b.items),
                                             MergedShared(db.sharedFields, b.fields, uris),
                                             MergedUnversioned(db.unversionedFields, b.fields, uris),
                                             MergedVersioned(db.versionedFields, b.fields, uris)),
                                          ResultSets(db, b)))
  {
    UniqueKeysOnceUrisAccepted(b);
  }

  /** AddOrUpdateVariants as a function: the tables afterwards and the report. */
  function AddOrUpdate(db: Db, b: Batch): Result<(Db, Report), ProviderError>
    requires WellKeyed(b)
  {
    match Run(db, b)
    case Failure(e) => Failure(ScriptFailed(e))
    case Success(out) =>
      if !b.calculateChanges then Success((out.db, EmptyReport()))
      else
        match GetChangeReport(out.results, b.invariantFieldsToReport, b.langVariantFieldsToReport,
                              b.variantFieldsToReport)
        case Failure(e) => Failure(ReaderFailed(e))
        case Success(report) => Success((out.db, report))
  }

  /** The four stored tables, updated in place by the merge script. */
  class Store {
    var items: map<Guid, ItemRow>
    var sharedFields: map<SharedKey, FieldRow>
    var unversionedFields: map<UnversionedKey, FieldRow>
    var versionedFields: map<VersionedKey, FieldRow>

    function State(): Db
      reads this
    {
      Db(items, sharedFields, unversionedFields, versionedFields)
    }

    constructor (db: Db)
      ensures State() == db
    {
      items := db.items;
      sharedFields := db.sharedFields;
      unversionedFields := db.unversionedFields;
      versionedFields := db.versionedFields;
    }

    /** The item UPDATE, then the item INSERT. */
    method MergeItems(batch: seq<ItemData>)
      requires UniqueItemIds(batch)
      modifies this`items
      ensures items == MergedItems(old(items), batch)
    {
      items := UpdateItems(items, batch);
      items := InsertItems(items, batch);
    }

    /** The SharedFields UPDATE, INSERT and DELETE. */
    method MergeSharedFields(fields: seq<FieldData>, uris: set<Uri>)
      requires UniquePartitionKeys(fields, SharedKeyOf)
      modifies this`sharedFields
      ensures sharedFields == MergedShared(old(sharedFields), fields, uris)
    {
      sharedFields := UpdateRows(sharedFields, fields, SharedUpdateJoin);
      sharedFields := InsertRows(sharedFields, fields, SharedKeyOf);
      sharedFields := DeleteRows(sharedFields, fields, SharedKeyOf, SharedScope(uris));
    }

    /** The UnversionedFields UPDATE, INSERT and DELETE. */
    method MergeUnversionedFields(fields: seq<FieldData>, uris: set<Uri>)
      requires UniquePartitionKeys(fields, UnversionedKeyOf)
      modifies this`unversionedFields
      ensures unversionedFields == MergedUnversioned(old(unversionedFields), fields, uris)
    {
      unversionedFields := UpdateRows(unversionedFields, fields, UnversionedUpdateJoin);
      unversionedFields := InsertRows(unversionedFields, fields, UnversionedKeyOf);
      unversionedFields := DeleteRows(unversionedFields, fields, UnversionedKeyOf, UnversionedScope(uris));
    }

    /** The VersionedFields UPDATE, INSERT and DELETE. */
    method MergeVersionedFields(fields: seq<FieldData>, uris: set<Uri>)
      requires UniquePartitionKeys(fields, VersionedKeyOf)
      modifies this`versionedFields
      ensures versionedFields == MergedVersioned(old(versionedFields), fields, uris)
    {
      versionedFields := UpdateRows(versionedFields, fields, VersionedUpdateJoin);
      versionedFields := InsertRows(versionedFields, fields, VersionedKeyOf);
      versionedFields := DeleteRows(versionedFields, fields, VersionedKeyOf, VersionedScope(uris));
    }

    /**
      The statements after the @Uris insert: each partition's report is computed before the
      writes to its own table, and the result sets are emitted in that order.
    */
    method MergeAll(b: Batch, uris: set<Uri>) returns (sets: seq<ResultSet>)
      requires UniqueItemIds(b.items)
      requires UniquePartitionKeys(b.fields, SharedKeyOf) && UniquePartitionKeys(b.fields, UnversionedKeyOf)
      requires UniquePartitionKeys(b.fields, VersionedKeyOf)
      modifies this
      ensures sets == ResultSets(old(State()), b)
      ensures items == MergedItems(old(items), b.items)
      ensures sharedFields == MergedShared(old(sharedFields), b.fields, uris)
      ensures unversionedFields == MergedUnversioned(old(unversionedFields), b.fields, uris)
      ensures versionedFields == MergedVersioned(old(versionedFields), b.fields, uris)
    {
      var itemSets := ItemReportSets(items, b);
      MergeItems(b.items);

      var sharedSets := SharedReportSets(sharedFields, b);
      MergeSharedFields(b.fields, uris);

      var unversionedSets := UnversionedReportSets(unversionedFields, b);
      MergeUnversionedFields(b.fields, uris);

      var versionedSets := VersionedReportSets(versionedFields, b);
      MergeVersionedFields(b.fields, uris);

      sets := itemSets + sharedSets + unversionedSets + versionedSets;
    }

    /**
      Runs SupportSetItemVariants against the tables. A failure (the CATCH block) returns the
      error and leaves every table as it was; otherwise the tables are those `Run` gives
      and the emitted result sets are returned.
    */
    method SetItemVariants(b: Batch) returns (r: Result<seq<ResultSet>, ScriptError>)
      requires WellKeyed(b)
      modifies this
      ensures Run(old(State()), b).Failure? ==>
        r == Failure(Run(old(State()), b).error) && State() == old(State())
      ensures Run(old(State()), b).Success? ==>
        r == Success(Run(old(State()), b).value.results) && State() == Run(old(State()), b).value.db
    {
      var touched := TouchedUris(b.fields, b.uriMarkerFieldId);
      if touched.Failure? {
        return Failure(touched.error);
      }
      RunSucceeds(State(), b, touched.value);
      var sets := MergeAll(b, touched.value);
      r := Success(sets);
    }
  }

  /**
    AddOrUpdateVariants: runs the script; when changes are calculated, reads the report from
    its result sets, otherwise returns two empty arrays.
  */
  method AddOrUpdateVariants(store: Store, b: Batch) returns (r: Result<Report, ProviderError>)
    requires WellKeyed(b)
    modifies store
    ensures AddOrUpdate(old(store.State()), b).Success? ==>
      r == Success(AddOrUpdate(old(store.State()), b).value.1) && store.State() == AddOrUpdate(old(store.State()), b).value.0
    ensures AddOrUpdate(old(store.State()), b).Failure? ==> r == Failure(AddOrUpdate(old(store.State()), b).error)
    ensures r.Failure? && r.error.ScriptFailed? ==> store.State() == old(store.State())
    ensures !b.calculateChanges && r.Success? ==> r.value == EmptyReport()
  {
    var sets := store.SetItemVariants(b);
    if sets.Failure? {
      return Failure(ScriptFailed(sets.error));
    }
    var report := EmptyReport();
    if b.calculateChanges {
      var read := GetChangeReport(sets.value, b.invariantFieldsToReport, b.langVariantFieldsToReport,
                                  b.variantFieldsToReport);
      if read.Failure? {
        return Failure(ReaderFailed(read.error));
      }
      report := read.value;
    }
    r := Success(report);
  }
}
