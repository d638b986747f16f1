/**
  The C# side of the change report: the result sets the script emits, read in order, each
  field set filtered to the rows whose Value differs from their OriginalValue, and the three
  field sets concatenated.
*/
module ChangeReport {
  import opened Wrappers
  import opened Entities

  /** One result set of the script, as the grid reader sees it. */
  datatype ResultSet = ItemChangeSet(itemRows: seq<ItemChange>) | FieldChangeSet(fieldRows: seq<FieldChange>)

  /** What AddOrUpdateVariants returns on success. */
  datatype Report = Report(itemChanges: seq<ItemChange>, fieldChanges: seq<FieldChange>)

  /** The reader found no result set, or one of the other kind, where it expected one. */
  datatype ReadError = MissingResultSet

  function EmptyReport(): Report
  {
    Report([], [])
  }

  /**
    `.Where(f => f.Value != f.OriginalValue)`: C#'s string inequality, under which two nulls
    are equal and null differs from every string. The order of the rows is kept.
  */
  function WithoutUnchanged(rows: seq<FieldChange>): (r: seq<FieldChange>)
    ensures forall c :: c in r <==> c in rows && c.value != c.originalValue
    ensures |r| <= |rows|
    ensures rows == [] ==> r == []
    decreases |rows|
  {
    if |rows| == 0 then []
    else if rows[0].value != rows[0].originalValue then [rows[0]] + WithoutUnchanged(rows[1..])
    else WithoutUnchanged(rows[1..])
  }

  /** The filter keeps each surviving row as often as it occurs, and drops every other row. */
  lemma {:induction false} WithoutUnchangedCounts(rows: seq<FieldChange>)
    ensures forall c :: multiset(WithoutUnchanged(rows))[c] == if c.value != c.originalValue then multiset(rows)[c] else 0
    decreases |rows|
  {
    if |rows| > 0 {
      assert rows == [rows[0]] + rows[1..];
      WithoutUnchangedCounts(rows[1..]);
    }
  }

  /** The filter keeps row order: two consecutive stretches of rows are filtered in turn. */
  lemma {:induction false} WithoutUnchangedAppend(a: seq<FieldChange>, b: seq<FieldChange>)
    ensures WithoutUnchanged(a + b) == WithoutUnchanged(a) + WithoutUnchanged(b)
    decreases |a|
  {
    if |a| == 0 {
      assert a + b == b;
    } else {
      assert (a + b)[1..] == a[1..] + b;
      WithoutUnchangedAppend(a[1..], b);
    }
  }

  /** Reads the next field set when `requested`, otherwise reads nothing and yields no rows. */
  function ReadFieldChanges(sets: seq<ResultSet>, requested: bool)
    : (r: Result<(seq<FieldChange>, seq<ResultSet>), ReadError>)
    ensures !requested ==> r == Success(([], sets))
    ensures requested && |sets| > 0 && sets[0].FieldChangeSet? ==>
      r == Success((WithoutUnchanged(sets[0].fieldRows), sets[1..]))
    ensures requested && (|sets| == 0 || !sets[0].FieldChangeSet?) ==> r.Failure?
  {
    if !requested then Success(([], sets))
    else if |sets| > 0 && sets[0].FieldChangeSet? then Success((WithoutUnchanged(sets[0].fieldRows), sets[1..]))
    else Failure(MissingResultSet)
  }

  /**
    GetChangeReport: the item set first, then the Shared, Unversioned and Versioned field
    sets, each read only when its report list is non-empty; field rows whose Value equals
    their OriginalValue are dropped.
  */
  function GetChangeReport(sets: seq<ResultSet>, fields: set<Guid>, langVariantFields: set<Guid>,
                           variantFields: set<Guid>): (r: Result<Report, ReadError>)
    ensures r.Success? ==> |sets| > 0 && sets[0].ItemChangeSet? && r.value.itemChanges == sets[0].itemRows
    ensures r.Success? ==> forall c :: c in r.value.fieldChanges ==> c.value != c.originalValue
  {
    if |sets| == 0 || !sets[0].ItemChangeSet? then Failure(MissingResultSet)
    else
      var itemChanges := sets[0].itemRows;
      match ReadFieldChanges(sets[1..], fields != {})
      case Failure(e) => Failure(e)
      case Success((shared, rest1)) =>
        match ReadFieldChanges(rest1, langVariantFields != {})
        case Failure(e) => Failure(e)
        case Success((unversioned, rest2)) =>
          match ReadFieldChanges(rest2, variantFields != {})
          case Failure(e) => Failure(e)
          case Success((versioned, _)) =>
            Success(Report(itemChanges, shared + unversioned + versioned))
  }

  /** The sets the script emits when changes are calculated, in the order it emits them. */
  function ReportSets(itemRows: seq<ItemChange>, shared: seq<FieldChange>, unversioned: seq<FieldChange>,
                      versioned: seq<FieldChange>, fields: set<Guid>, langVariantFields: set<Guid>,
                      variantFields: set<Guid>): seq<ResultSet>
  {
    [ItemChangeSet(itemRows)]
    + (if fields != {} then [FieldChangeSet(shared)] else [])
    + (if langVariantFields != {} then [FieldChangeSet(unversioned)] else [])
    + (if variantFields != {} then [FieldChangeSet(versioned)] else [])
  }

  /**
    The reader and the script agree: reading what the script emits yields the item rows and
    the filtered field rows of the requested partitions, Shared first, then Unversioned,
    then Versioned.
  */
  lemma ReadsWhatScriptEmits(itemRows: seq<ItemChange>, shared: seq<FieldChange>, unversioned: seq<FieldChange>,
                             versioned: seq<FieldChange>, fields: set<Guid>, langVariantFields: set<Guid>,
                             variantFields: set<Guid>)
    ensures GetChangeReport(ReportSets(itemRows, shared, unversioned, versioned, fields, langVariantFields, variantFields),
                            fields, langVariantFields, variantFields)
         == Success(Report(itemRows,
                           (if fields != {} then WithoutUnchanged(shared) else [])
                           + (if langVariantFields != {} then WithoutUnchanged(unversioned) else [])
                           + (if variantFields != {} then WithoutUnchanged(versioned) else [])))
  {
    var v := if variantFields != {} then [FieldChangeSet(versioned)] else [];
    var u := (if langVariantFields != {} then [FieldChangeSet(unversioned)] else []) + v;
    var s := (if fields != {} then [FieldChangeSet(shared)] else []) + u;
    var sets := ReportSets(itemRows, shared, unversioned, versioned, fields, langVariantFields, variantFields);
    assert sets == [ItemChangeSet(itemRows)] + s;
    assert sets[1..] == s;
    if fields != {} {
      assert s[0] == FieldChangeSet(shared) && s[1..] == u;
    } else {
      assert s == u;
    }
    if langVariantFields != {} {
      assert u[0] == FieldChangeSet(unversioned) && u[1..] == v;
    } else {
      assert u == v;
    }
    assert ReadFieldChanges(s, fields != {}) == Success((if fields != {} then WithoutUnchanged(shared) else [], u));
    assert ReadFieldChanges(u, langVariantFields != {})
        == Success((if langVariantFields != {} then WithoutUnchanged(unversioned) else [], v));
  }
}
