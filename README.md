# Batch item and field merge of the Sitecore publishing provider

This project models `AddOrUpdateVariants` of the support build of
`ClassicSqlServerDataProvider` and the T-SQL script it sends, `SupportSetItemVariants`.
The call hands the script a batch of item rows and field rows. It gets back an optional
change report.

The script works in a fixed order:

1. It fills the `@Uris` table variable with the (ItemId, Language, Version) triples of the
   marker (Revision) field rows. Its UNIQUE constraint fails the batch when a triple
   repeats.
2. It optionally reports item changes, then updates and inserts `Items`.
3. It handles `SharedFields`, `UnversionedFields` and `VersionedFields` in that order. For
   each one it optionally reports changes, then runs an UPDATE, an INSERT and a DELETE,
   with the DELETE limited to the touched scope.

The C# side reads the reported sets back. It drops field rows whose Value equals their
OriginalValue and concatenates the Shared, Unversioned and Versioned rows.

## The model

- `entities.dfy` holds the rows and keys. Nullable columns are `Option`s. `SqlNe` and `SqlEq`
  are SQL's `<>` and `=`, which are never true against NULL.
- `statements.dfy` gives one pure function per statement of the script:
  - `TouchedUris` fills `@Uris`;
  - `ItemChanges`, `UpdateItems` and `InsertItems` cover the item report and writes;
  - `UpdateRows`, `InsertRows`, `DeleteRows` and `FieldChanges` cover each field partition,
    parameterised by its join, its key and its delete scope.

  Each statement also has a lemma stating what it leaves.
- `change_report.dfy` is `GetChangeReport`: the filter, the conditional reads and the
  concatenation.
- `provider.dfy` has:
  - `Run`, the whole script as a function;
  - the `Store` class, whose four map fields are the tables and whose `SetItemVariants`
    method runs the statements one after another in place;
  - `AddOrUpdateVariants`, which runs the script and reads the report.
- `properties.dfy` states what a run does, table by table. It also covers what the returned
  report means, and what a second run of the same batch does.
- `scenarios.dfy` works through four small concrete batches.

The script is modelled as written, quirks included:

- The SharedFields UPDATE joins on (ItemId, FieldId) only.
- The UnversionedFields UPDATE ignores the incoming Version.
- Every field report tests its partition inside its LEFT JOIN, so a row of another partition
  with a non-NULL Value is reported Created. The Shared report tests NULL Language and Version,
  the Unversioned report tests NULL Version and the Versioned report compares Language and
  Version with `=`. The Shared case is the most visible one.
- A NULL stored Value is never overwritten.

## Where rerunning a batch is not idempotent

One would expect re-applying a committed batch to change nothing. The code does not quite
do this. `RerunLeavesTables` and `RerunReportsNoFieldChanges` prove that a second run
changes nothing only under stated conditions, and these lemmas show what happens otherwise:

- `RerunChangesSharedFields`: a stored "0" with a shared row bringing "1" followed by an
  unversioned row bringing "2" for the same (ItemId, FieldId). The first run leaves "1" in
  SharedFields and the second leaves "2".
- `NullStoredValueReportedAgain`: a versioned field stored with a NULL Value whose FieldId is
  on the versioned report list, brought with a non-NULL Value, is reported Updated again by
  the second run.
- `OtherPartitionRowsReportedCreated`: a row with a Language and a non-NULL Value whose FieldId
  is on the Shared report list is reported Created on every run. A NULL-valued such row falls
  to the filter instead.
- `SharedRowTakesOtherPartitionValue` and `UnversionedRowTakesVersionedValue`: an incoming row
  of another partition can overwrite a Shared or Unversioned row.

The code is followed throughout, apart from the differences listed under "## Left out".

## Model

| member | source | states |
|---|---|---|
| `Entities.PartitionRouting` | src/Sitecore.Support.290996/Framework/Publishing/Data/Classic/SqlServer/ClassicSqlServerDataProvider.cs:253-255 | The three INSERT filters (lines 253-255, 330-332, 413-415) give an incoming row a key in a partition exactly when `PartitionOf` names that partition: both Language and Version NULL is Shared, only Language is Unversioned, both is Versioned. So each row is inserted into at most one partition, a row with a Version but no Language into none, and the key is the row's own columns. |
| `Statements.TouchedUris` | src/Sitecore.Support.290996/Framework/Publishing/Data/Classic/SqlServer/ClassicSqlServerDataProvider.cs:121-130 | Filling @Uris succeeds exactly when no two marker rows carry the same (ItemId, Language, Version) triple, two NULLs counting as equal under UNIQUE; a failure names a repeated triple; on success the set is exactly the triples of the marker rows. |
| `Statements.ItemChangesRows` | src/Sitecore.Support.290996/Framework/Publishing/Data/Classic/SqlServer/ClassicSqlServerDataProvider.cs:133-166 | One item change row per incoming item, in order: Created exactly when no stored item has its Id; each Original* column is non-NULL exactly when the stored and incoming values are both non-NULL and differ, and is then the stored value; each New* column is the incoming value. |
| `Statements.UpdateItemsEffect` | src/Sitecore.Support.290996/Framework/Publishing/Data/Classic/SqlServer/ClassicSqlServerDataProvider.cs:169-182 | The Items UPDATE keeps the set of Ids; a stored item joined to an incoming item whose Name, TemplateID, ParentID or MasterID differs (SQL `<>`) takes those four columns and Updated from some such item; every other stored item is unchanged; Created is never changed. |
| `Statements.InsertItemsEffect` | src/Sitecore.Support.290996/Framework/Publishing/Data/Classic/SqlServer/ClassicSqlServerDataProvider.cs:185-196 | The Items INSERT leaves the stored Ids plus the incoming Ids; stored rows are kept and an Id without a stored row gets all the incoming columns. |
| `Statements.UpdateRowsEffect` | src/Sitecore.Support.290996/Framework/Publishing/Data/Classic/SqlServer/ClassicSqlServerDataProvider.cs:228-237 | A field UPDATE (also lines 302-312 and 382-393, each with its own join) keeps the keys; a stored row joined to an incoming row whose Value differs (both non-NULL) takes Value and Updated from some such row; every other stored row is unchanged. |
| `Statements.InsertRowsEffect` | src/Sitecore.Support.290996/Framework/Publishing/Data/Classic/SqlServer/ClassicSqlServerDataProvider.cs:240-255 | A field INSERT (also lines 315-332 and 396-415) leaves the stored keys plus the keys of the incoming rows of the partition; stored rows are kept and a new key gets its incoming row's Id, Value, Created and Updated. |
| `Statements.DeleteRowsEffect` | src/Sitecore.Support.290996/Framework/Publishing/Data/Classic/SqlServer/ClassicSqlServerDataProvider.cs:258-271 | A field DELETE (also lines 335-351 and 418-432) removes a stored row exactly when its key is in the touched scope and no incoming row of the partition has that key; surviving rows are unchanged. |
| `Statements.Reported` | src/Sitecore.Support.290996/Framework/Publishing/Data/Classic/SqlServer/ClassicSqlServerDataProvider.cs:215-218 | The INNER JOIN with a report list keeps exactly the incoming rows whose FieldId is on the list. |
| `Statements.ReportedCounts` | src/Sitecore.Support.290996/Framework/Publishing/Data/Classic/SqlServer/ClassicSqlServerDataProvider.cs:215-218 | The join keeps each incoming row whose FieldId is on the list exactly as often as it occurs in the batch, and no other row. |
| `Statements.ReportedAppend` | src/Sitecore.Support.290996/Framework/Publishing/Data/Classic/SqlServer/ClassicSqlServerDataProvider.cs:215-218 | The join keeps batch order: the rows of two consecutive stretches of the batch come out one stretch after the other. |
| `Statements.FieldChangesRows` | src/Sitecore.Support.290996/Framework/Publishing/Data/Classic/SqlServer/ClassicSqlServerDataProvider.cs:201-225 | A field change set (also lines 276-299 and 356-379) has one row per reported incoming row, carrying its key columns and Value; OriginalValue is the Value of the stored row under its partition key, NULL when none matches; EditType is Created exactly when none matches, Unchanged exactly when both Values are non-NULL and equal, Updated otherwise. |
| `ChangeReport.WithoutUnchanged` | src/Sitecore.Support.290996/Framework/Publishing/Data/Classic/SqlServer/ClassicSqlServerDataProvider.cs:92-93 | The filter keeps exactly the rows whose Value differs from OriginalValue under C#'s null-aware string inequality, never more rows than it is given. |
| `ChangeReport.WithoutUnchangedCounts` | src/Sitecore.Support.290996/Framework/Publishing/Data/Classic/SqlServer/ClassicSqlServerDataProvider.cs:92-93 | The filter keeps each row whose Value differs from its OriginalValue exactly as often as it occurs, and drops every other row. |
| `ChangeReport.WithoutUnchangedAppend` | src/Sitecore.Support.290996/Framework/Publishing/Data/Classic/SqlServer/ClassicSqlServerDataProvider.cs:92-93 | The filter keeps row order: filtering two consecutive stretches of rows gives their filtered rows one after the other. |
| `ChangeReport.GetChangeReport` | src/Sitecore.Support.290996/Framework/Publishing/Data/Classic/SqlServer/ClassicSqlServerDataProvider.cs:81-110 | A successful read returns the first set's item rows unchanged, and no returned field row has Value equal to OriginalValue. |
| `ChangeReport.ReadsWhatScriptEmits` | src/Sitecore.Support.290996/Framework/Publishing/Data/Classic/SqlServer/ClassicSqlServerDataProvider.cs:89-109 | Reading back the sets the script emits (item set, then a set per non-empty report list) yields the item rows and the filtered Shared, Unversioned and Versioned rows concatenated in that order. |
| `Provider.UniqueKeysOnceUrisAccepted` | src/Sitecore.Support.290996/Framework/Publishing/Data/Classic/SqlServer/ClassicSqlServerDataProvider.cs:125-130 | Once @Uris accepts the marker rows, no two incoming field rows share their four key columns, so no partition INSERT adds a key twice. |
| `Provider.Store.MergeItems` | src/Sitecore.Support.290996/Framework/Publishing/Data/Classic/SqlServer/ClassicSqlServerDataProvider.cs:169-196 | The Items UPDATE then INSERT, applied to the Items table in place; the other tables are not touched. |
| `Provider.Store.MergeSharedFields` | src/Sitecore.Support.290996/Framework/Publishing/Data/Classic/SqlServer/ClassicSqlServerDataProvider.cs:228-271 | The SharedFields UPDATE, INSERT and DELETE in that order, applied in place to SharedFields only. |
| `Provider.Store.MergeUnversionedFields` | src/Sitecore.Support.290996/Framework/Publishing/Data/Classic/SqlServer/ClassicSqlServerDataProvider.cs:302-351 | The UnversionedFields UPDATE, INSERT and DELETE in that order, applied in place to UnversionedFields only. |
| `Provider.Store.MergeVersionedFields` | src/Sitecore.Support.290996/Framework/Publishing/Data/Classic/SqlServer/ClassicSqlServerDataProvider.cs:382-432 | The VersionedFields UPDATE, INSERT and DELETE in that order, applied in place to VersionedFields only. |
| `Provider.Store.MergeAll` | src/Sitecore.Support.290996/Framework/Publishing/Data/Classic/SqlServer/ClassicSqlServerDataProvider.cs:133-432 | Each report is computed before the writes to its own table; the emitted sets are those of the tables as they were; the tables end as `Run` leaves them. |
| `Provider.Store.SetItemVariants` | src/Sitecore.Support.290996/Framework/Publishing/Data/Classic/SqlServer/ClassicSqlServerDataProvider.cs:116-450 | A script failure (the CATCH block) returns its error with every table as it was; otherwise the tables are those `Run` gives and the emitted sets are returned. |
| `Provider.AddOrUpdateVariants` | src/Sitecore.Support.290996/Framework/Publishing/Data/Classic/SqlServer/ClassicSqlServerDataProvider.cs:29-79 | On success the store holds the merged tables and the call returns the report; a script failure leaves the store unchanged; with calculateChanges false the report is two empty arrays. |
| `MergeProperties.ScopesAreMarkerRows` | src/Sitecore.Support.290996/Framework/Publishing/Data/Classic/SqlServer/ClassicSqlServerDataProvider.cs:258-271 | The delete scopes read off @Uris are the marker rows: a Shared key is in scope exactly when some marker row names its item, an Unversioned key when one names its item and language, a Versioned key when one names exactly its triple (lines 261-264, 339-343, 421-424). |
| `MergeProperties.MergedRowsAsScripted` | src/Sitecore.Support.290996/Framework/Publishing/Data/Classic/SqlServer/ClassicSqlServerDataProvider.cs:228-271 | UPDATE, INSERT and DELETE of one partition together: only stored or incoming keys remain; every keyed incoming row has its key; a new key holds its incoming row; a stored row is gone exactly when in scope and unmatched; a surviving row is unchanged unless some joining row has a differing Value, and then holds that row's Value and Updated. |
| `MergeProperties.MergedItemsAsScripted` | src/Sitecore.Support.290996/Framework/Publishing/Data/Classic/SqlServer/ClassicSqlServerDataProvider.cs:169-196 | After the item merge the Ids are the stored plus the incoming ones; a new Id holds its incoming item; a stored incoming Id is overwritten exactly when its item differs; untouched items and every Created column are kept. |
| `MergeProperties.ItemsMerged` | src/Sitecore.Support.290996/Framework/Publishing/Data/Classic/SqlServer/ClassicSqlServerDataProvider.cs:169-196 | A run leaves the item merge in Items, and every incoming Id is present afterwards. |
| `MergeProperties.SharedFieldsMerged` | src/Sitecore.Support.290996/Framework/Publishing/Data/Classic/SqlServer/ClassicSqlServerDataProvider.cs:228-271 | A run merges SharedFields as scripted, with the delete scoped to the items some marker row names and the UPDATE joined on (ItemId, FieldId) alone. |
| `MergeProperties.UnversionedFieldsMerged` | src/Sitecore.Support.290996/Framework/Publishing/Data/Classic/SqlServer/ClassicSqlServerDataProvider.cs:302-351 | A run merges UnversionedFields as scripted, with the delete scoped to the (ItemId, Language) pairs some marker row names and the UPDATE ignoring the incoming Version. |
| `MergeProperties.VersionedFieldsMerged` | src/Sitecore.Support.290996/Framework/Publishing/Data/Classic/SqlServer/ClassicSqlServerDataProvider.cs:382-432 | A run merges VersionedFields as scripted, with the delete scoped to exactly the (ItemId, Language, Version) triples some marker row names. |
| `MergeProperties.InReportedFieldChanges` | src/Sitecore.Support.290996/Framework/Publishing/Data/Classic/SqlServer/ClassicSqlServerDataProvider.cs:107-109 | A row is among the returned field rows exactly when it survives the filter of the Shared, Unversioned or Versioned set of a non-empty report list. |
| `MergeProperties.ChangeReportOfRun` | src/Sitecore.Support.290996/Framework/Publishing/Data/Classic/SqlServer/ClassicSqlServerDataProvider.cs:45-79 | The call fails exactly when the script fails, with its error; on success the tables are the script's; the report is empty without calculateChanges and otherwise holds the item rows and the filtered field rows, all computed against the tables before the run. |
| `MergeProperties.FailsOnRepeatedMarker` | src/Sitecore.Support.290996/Framework/Publishing/Data/Classic/SqlServer/ClassicSqlServerDataProvider.cs:121-130 | The call fails exactly when two marker rows repeat a triple (the UNIQUE constraint of @Uris, re-raised by the CATCH block at lines 439-448), and the error names such a triple. |
| `MergeProperties.FilteredRowsChanged` | src/Sitecore.Support.290996/Framework/Publishing/Data/Classic/SqlServer/ClassicSqlServerDataProvider.cs:89-105 | Under exact string comparison, a field row surviving the filter is never Unchanged, is Created only with a non-NULL Value, has its FieldId on the report list, and is the row of some incoming field. |
| `MergeProperties.NoUnchangedReported` | src/Sitecore.Support.290996/Framework/Publishing/Data/Classic/SqlServer/ClassicSqlServerDataProvider.cs:89-109 | Every returned field row has Value different from OriginalValue and, under exact string comparison, is not Unchanged, carries a Value when Created, names a reported FieldId and comes from an incoming row. |
| `MergeProperties.ItemRowsOfRun` | src/Sitecore.Support.290996/Framework/Publishing/Data/Classic/SqlServer/ClassicSqlServerDataProvider.cs:133-166 | With calculateChanges, the call returns one item row per incoming item in order, Created exactly when the Id was not stored before the run, and a Created row has all four originals NULL. |
| `MergeProperties.OtherPartitionRowsReportedCreated` | src/Sitecore.Support.290996/Framework/Publishing/Data/Classic/SqlServer/ClassicSqlServerDataProvider.cs:220-224 | The Shared report tests NULL Language and Version inside its join: an incoming row with a Language and a non-NULL Value whose FieldId is on the Shared list is always returned as Created with no OriginalValue, whatever is stored. A NULL-Valued row is dropped by the filter at line 92. |
| `MergeProperties.OtherPartitionRowCreated` | src/Sitecore.Support.290996/Framework/Publishing/Data/Classic/SqlServer/ClassicSqlServerDataProvider.cs:220-224 | The same on the Shared change set alone: a Language row with a non-NULL Value is Created with OriginalValue NULL and survives the filter. |
| `MergeProperties.VersionedJoinsOnlyOwnKey` | src/Sitecore.Support.290996/Framework/Publishing/Data/Classic/SqlServer/ClassicSqlServerDataProvider.cs:386-391 | The VersionedFields UPDATE joins an incoming row only to the stored row under its own four-column key. |
| `MergeProperties.MergedValues` | src/Sitecore.Support.290996/Framework/Publishing/Data/Classic/SqlServer/ClassicSqlServerDataProvider.cs:228-255 | After a merge whose UPDATE joins only own keys, the row under an incoming row's key no longer differs from it: it holds that row's Value, or the stored Value the UPDATE left alone. |
| `MergeProperties.UpdateRowsSettled` | src/Sitecore.Support.290996/Framework/Publishing/Data/Classic/SqlServer/ClassicSqlServerDataProvider.cs:228-237 | A field UPDATE changes nothing when no joined row has a differing Value. |
| `MergeProperties.InsertRowsSettled` | src/Sitecore.Support.290996/Framework/Publishing/Data/Classic/SqlServer/ClassicSqlServerDataProvider.cs:240-255 | A field INSERT changes nothing when every incoming row of the partition already has its key. |
| `MergeProperties.DeleteRowsSettled` | src/Sitecore.Support.290996/Framework/Publishing/Data/Classic/SqlServer/ClassicSqlServerDataProvider.cs:258-271 | A field DELETE changes nothing when every in-scope key is matched by an incoming row. |
| `MergeProperties.MergedRowsSettled` | src/Sitecore.Support.290996/Framework/Publishing/Data/Classic/SqlServer/ClassicSqlServerDataProvider.cs:228-271 | A partition merged as scripted is settled: merging it again with the same rows and scope changes nothing, provided its UPDATE joins only own keys. |
| `MergeProperties.MergedRowsIdempotent` | src/Sitecore.Support.290996/Framework/Publishing/Data/Classic/SqlServer/ClassicSqlServerDataProvider.cs:228-271 | Merging a partition twice with the same rows and scope gives what merging it once gives, provided its UPDATE joins only own keys. |
| `MergeProperties.UpdateItemsSettled` | src/Sitecore.Support.290996/Framework/Publishing/Data/Classic/SqlServer/ClassicSqlServerDataProvider.cs:169-182 | The Items UPDATE changes nothing when no joined item differs. |
| `MergeProperties.InsertItemsSettled` | src/Sitecore.Support.290996/Framework/Publishing/Data/Classic/SqlServer/ClassicSqlServerDataProvider.cs:185-196 | The Items INSERT changes nothing when every incoming Id is stored. |
| `MergeProperties.MergedItemsSettled` | src/Sitecore.Support.290996/Framework/Publishing/Data/Classic/SqlServer/ClassicSqlServerDataProvider.cs:169-196 | After the item merge every incoming item is stored and no longer differs from its stored row. |
| `MergeProperties.ItemsMergeIdempotent` | src/Sitecore.Support.290996/Framework/Publishing/Data/Classic/SqlServer/ClassicSqlServerDataProvider.cs:169-196 | Merging the items twice with the same batch gives what merging them once gives. |
| `MergeProperties.RerunLeavesTables` | src/Sitecore.Support.290996/Framework/Publishing/Data/Classic/SqlServer/ClassicSqlServerDataProvider.cs:119-432 | Running the same batch a second time succeeds and leaves the four tables as the first run left them, provided no incoming row of another partition joins a SharedFields or UnversionedFields row. |
| `MergeProperties.PartitionsMergeIdempotent` | src/Sitecore.Support.290996/Framework/Publishing/Data/Classic/SqlServer/ClassicSqlServerDataProvider.cs:228-432 | Each of the three partitions merged twice with the same rows and scope is merged once, provided no incoming row of another partition joins a SharedFields or UnversionedFields row. |
| `MergeProperties.SettledItemsReportNothing` | src/Sitecore.Support.290996/Framework/Publishing/Data/Classic/SqlServer/ClassicSqlServerDataProvider.cs:133-166 | Against the merged Items table every incoming item is reported Updated with no original values. |
| `MergeProperties.RerunReportsNoItemChanges` | src/Sitecore.Support.290996/Framework/Publishing/Data/Classic/SqlServer/ClassicSqlServerDataProvider.cs:133-196 | A second run of the same batch reports no Created item and no original item value. |
| `MergeProperties.SettledRowsReportNothing` | src/Sitecore.Support.290996/Framework/Publishing/Data/Classic/SqlServer/ClassicSqlServerDataProvider.cs:201-271 | Against a partition merged as scripted, every change row has its Value equal to its OriginalValue, so none survives the filter, given keyed non-NULL reported rows, non-NULL stored Values and own-key joins. |
| `MergeProperties.UnchangedRowsFilteredOut` | src/Sitecore.Support.290996/Framework/Publishing/Data/Classic/SqlServer/ClassicSqlServerDataProvider.cs:92-93 | Rows whose Value equals their OriginalValue all fall to the filter. |
| `MergeProperties.RerunReportsNoFieldChanges` | src/Sitecore.Support.290996/Framework/Publishing/Data/Classic/SqlServer/ClassicSqlServerDataProvider.cs:81-432 | A second run of the same batch returns no field row, provided each report list names fields of its own partition only, no Value is NULL, and no incoming row of another partition joins a SharedFields or UnversionedFields row. |
| `MergeProperties.SettledSharedReportsNothing` | src/Sitecore.Support.290996/Framework/Publishing/Data/Classic/SqlServer/ClassicSqlServerDataProvider.cs:201-271 | Under those conditions, the Shared change set against the merged SharedFields is empty after the filter. |
| `MergeProperties.SettledUnversionedReportsNothing` | src/Sitecore.Support.290996/Framework/Publishing/Data/Classic/SqlServer/ClassicSqlServerDataProvider.cs:276-351 | Under those conditions, the Unversioned change set against the merged UnversionedFields is empty after the filter. |
| `MergeProperties.SettledVersionedReportsNothing` | src/Sitecore.Support.290996/Framework/Publishing/Data/Classic/SqlServer/ClassicSqlServerDataProvider.cs:356-432 | Under those conditions, the Versioned change set against the merged VersionedFields is empty after the filter. |
| `MergeProperties.NullStoredValueNeverUpdated` | src/Sitecore.Support.290996/Framework/Publishing/Data/Classic/SqlServer/ClassicSqlServerDataProvider.cs:237 | `<>` is never true against NULL: a stored row with a NULL Value that survives the merge is unchanged, whatever the batch brings (likewise lines 312 and 393). |
| `MergeProperties.NullRowReportedUpdated` | src/Sitecore.Support.290996/Framework/Publishing/Data/Classic/SqlServer/ClassicSqlServerDataProvider.cs:356-393 | Against a merged table, an incoming non-NULL Value under a key whose stored Value was NULL is reported Updated from NULL. |
| `MergeProperties.NullStoredValueReportedAgain` | src/Sitecore.Support.290996/Framework/Publishing/Data/Classic/SqlServer/ClassicSqlServerDataProvider.cs:356-393 | So a versioned field stored with a NULL Value is reported Updated again by the second run of a batch that brings a Value for it. |
| `MergeProperties.SharedRowTakesOtherPartitionValue` | src/Sitecore.Support.290996/Framework/Publishing/Data/Classic/SqlServer/ClassicSqlServerDataProvider.cs:228-237 | An incoming row with a Language, when it is the only row joining a stored Shared row on (ItemId, FieldId) and its Value differs from a non-NULL stored Value, overwrites that row's Value, and the row survives unless its item is touched. |
| `MergeProperties.UnversionedRowTakesVersionedValue` | src/Sitecore.Support.290996/Framework/Publishing/Data/Classic/SqlServer/ClassicSqlServerDataProvider.cs:302-312 | A versioned incoming row, when it is the only row joining a stored Unversioned row and its Value differs from a non-NULL stored Value, overwrites that row's Value, and the row survives unless its language is touched. |
| `MergeProperties.FirstJoiningRowWrites` | src/Sitecore.Support.290996/Framework/Publishing/Data/Classic/SqlServer/ClassicSqlServerDataProvider.cs:228-237 | When the first incoming row joins a stored row and its Value differs, the UPDATE writes that row's Value and Updated: the one outcome of those SQL Server allows that the model pins. |
| `MergeProperties.SharedMergeNotSettled` | src/Sitecore.Support.290996/Framework/Publishing/Data/Classic/SqlServer/ClassicSqlServerDataProvider.cs:228-271 | A stored "0", a shared row bringing "1" and then an unversioned row bringing "2" for the same (ItemId, FieldId): merging SharedFields once leaves "1", merging again leaves "2". |
| `MergeProperties.NoMarkersTouchNothing` | src/Sitecore.Support.290996/Framework/Publishing/Data/Classic/SqlServer/ClassicSqlServerDataProvider.cs:125-130 | A batch without marker rows fills @Uris with nothing. |
| `MergeProperties.RerunChangesSharedFields` | src/Sitecore.Support.290996/Framework/Publishing/Data/Classic/SqlServer/ClassicSqlServerDataProvider.cs:119-271 | With that batch and no marker row, both runs succeed; the first leaves "1" in SharedFields and the second "2", so the condition of `RerunLeavesTables` is needed. |
| `Scenarios.NewItemReportedCreated` | src/Sitecore.Support.290996/Framework/Publishing/Data/Classic/SqlServer/ClassicSqlServerDataProvider.cs:133-196 | A new item "Home" with no stored row is inserted with all its columns and reported Created, OriginalName NULL, NewName "Home". |
| `Scenarios.RenamedItemReportedUpdated` | src/Sitecore.Support.290996/Framework/Publishing/Data/Classic/SqlServer/ClassicSqlServerDataProvider.cs:133-182 | A stored item "Home" renamed "Home2" is reported Updated with OriginalName "Home" and NewName "Home2", and its row takes the new name and Updated while keeping Created. |
| `Scenarios.UnchangedSharedFieldNotReported` | src/Sitecore.Support.290996/Framework/Publishing/Data/Classic/SqlServer/ClassicSqlServerDataProvider.cs:201-271 | A shared field submitted with its stored Value "1" and on the report list yields no returned row, and SharedFields is left as it was. |
| `Scenarios.SameValueKept` | src/Sitecore.Support.290996/Framework/Publishing/Data/Classic/SqlServer/ClassicSqlServerDataProvider.cs:228-271 | The merge half of that scenario over any table merged as scripted. |
| `Scenarios.SingleMarkerTouches` | src/Sitecore.Support.290996/Framework/Publishing/Data/Classic/SqlServer/ClassicSqlServerDataProvider.cs:127-130 | A batch whose one field row is a marker row touches exactly that row's triple. |
| `Scenarios.TouchedVersionDeleted` | src/Sitecore.Support.290996/Framework/Publishing/Data/Classic/SqlServer/ClassicSqlServerDataProvider.cs:418-432 | A marker row for (A, "en", 1) and no other field: the stored field on version 1 is deleted, the one on version 2 is kept, and the marker row is inserted. |
| `Scenarios.VersionOneReplaced` | src/Sitecore.Support.290996/Framework/Publishing/Data/Classic/SqlServer/ClassicSqlServerDataProvider.cs:382-432 | The merge half of that scenario over any table merged as scripted. |

## Left out

- Dapper and ADO.NET plumbing are not part of this model, because they are foreign asynchronous library calls: `QueryMultipleAsync`, `ExecuteAsync`, the grid reader, the transaction and the command timeout (lines 45-61). The script's effect on the tables and its result sets are modelled directly.
- `ClassicSqlServerUtils.BuildItemDataTable`, `BuildFieldDataTable` and `SqlServerUtils.BuildIdTable` (lines 38-43) are not part of this model. Their inputs are taken as sequences of records and sets of Guids.
- The trailing `SELECT 1` and its `ReadAsync<int>` (lines 74 and 436) carry no data and are not modelled.
- RAISERROR's message formatting (lines 441-448), the logger, `Condition.Requires` (line 22) and the unused `SqlServerUtils` property (line 27) are logging, argument guards and dead code. The model keeps only the error itself, which names the repeated triple.
- Rollback and atomicity belong to the caller's transaction. The only failure modelled is the `@Uris` constraint violation, the script's first write, so the store is unchanged on failure without a rollback.
- Other storage failures are not modelled because they come from the storage engine, not from this code: deadlocks, timeouts, NOT NULL or key violations in the stored tables.
- Concurrency and locking between callers are not modelled, because the storage engine arbitrates them.
- Row order inside a result set is taken to be batch order, because the SELECTs have no ORDER BY.
- Report lists are sets, because the script uses them only in joins; a duplicate id in a report list would repeat rows in SQL and does not here.
- Entities.SqlEq, Entities.SqlNe, Statements.Classify, Statements.UpdateRows, MergeProperties.NoUnchangedReported and MergeProperties.FilteredRowsChanged compare strings exactly. Under SQL Server collation, `=` and `<>` on nvarchar ignore trailing blanks, and a case- or accent-insensitive collation also folds case or accents. The C# filter at line 92 is ordinal. So with a stored "1" and an incoming "1 ", the program classifies the row Unchanged, skips the UPDATE and still returns the row; the model classifies it Updated and writes "1 ". The two lemmas hold under exact comparison only.
- Statements.TouchedUris, Entities.UnversionedKeyOf, Entities.VersionedKeyOf (with the types Language, UnversionedKey, VersionedKey and Uri) and the Unversioned and Versioned merges and reports (Statements.UpdateRows, InsertRows, DeleteRows and FieldChanges on those partitions) treat a Language as an exact string. SQL Server compares nvarchar Language under the collation: in the report joins (lines 297, 377), the UPDATE, INSERT and DELETE joins (lines 310, 328, 343, 348, 390, 410, 423, 429) and the UNIQUE constraint of @Uris (line 125), trailing blanks are ignored and a case-insensitive collation also folds case. So with a stored Unversioned row (I, F, "en") and an incoming row (I, F, "en "), the program overwrites the stored row and inserts nothing; the model keeps "en" as it was and inserts a second key for "en ". Two marker rows (A, "en", 1) and (A, "EN", 1) break the constraint under a case-insensitive collation, so the program fails and the model succeeds. The @Uris Language column is NVARCHAR(50) (line 123); a longer marker Language makes the program's INSERT fail with a truncation error, while the model keeps languages unbounded.
- Guids and timestamps are compared only for equality; languages as described above. Field values and names are unbounded strings, with no nvarchar length limit.
- Statements.UpdateRows and Statements.UpdateItems pick the first joining incoming row whose values differ, in batch order; SQL Server picks an unspecified one. Their effect lemmas and `MergedAsScripted` say only "some joining row". The contracts that equate a table with `MergedItems`, `MergedShared`, `MergedUnversioned`, `MergedVersioned` or `Run` pin one of the outcomes SQL Server allows. This applies to `Store.MergeItems`, the three `Store.Merge*Fields` methods, `Store.MergeAll`, `Store.SetItemVariants`, `AddOrUpdateVariants` and `RerunChangesSharedFields`. The choice matters: a shared row and an unversioned row for the same (ItemId, FieldId) both join one SharedFields row.
- The default argument `calculateChanges = true` of AddOrUpdateVariants (line 36) is not modelled: `Batch.calculateChanges` is always given explicitly.
- Provider.Store.SetItemVariants requires unique item Ids and unique field keys except among marker rows, as do `Run` and `AddOrUpdateVariants`. With duplicates the script would insert the same key twice, which the map-based tables cannot represent. Duplicate marker triples are the one modelled failure.
- MergeProperties.RerunReportsNoFieldChanges, MergeProperties.RerunLeavesTables and MergeProperties.PartitionsMergeIdempotent do not promise that an arbitrary second run changes nothing, because the code does not do that in general (see `RerunChangesSharedFields`). They hold only when no incoming row of another partition joins a SharedFields or UnversionedFields row; `RerunReportsNoFieldChanges` also needs no NULL Values and report lists that name fields of their own partition only.
