/** Fields, schemas and record batches of src/types/schema.rs. */
module Schemas {
  import opened Wrappers
  import opened Errors
  import opened DataTypes
  import opened Scalar

  datatype Field = Field(name: string, fieldType: DataType, isNullable: bool)

  /** An ordered field list; names are not required to be unique. */
  datatype Schema = Schema(fields: seq<Field>)

  datatype RecordBatch = RecordBatch(schema: Schema, columns: seq<ColumnVector>)

  /** `Schema::new`: the fields are kept as given, in order. */
  function NewSchema(fields: seq<Field>): (s: Schema)
    ensures s.fields == fields
  {
    Schema(fields)
  }

  /** Index of the first field called `name`, if any. */
  function FirstFieldNamed(fields: seq<Field>, name: string): (r: Option<nat>)
    ensures r.Some? ==> r.value < |fields| && fields[r.value].name == name
    ensures r.Some? ==> forall j :: 0 <= j < r.value ==> fields[j].name != name
    ensures r.None? ==> forall j :: 0 <= j < |fields| ==> fields[j].name != name
  {
    if |fields| == 0 then None
    else if fields[0].name == name then Some(0)
    else match FirstFieldNamed(fields[1..], name)
      case None => None
      case Some(k) => Some(k + 1)
  }

  function ColumnNotFound(name: string): string
  {
    "Column '" + name + "' not found"
  }

  /** `Schema::column_exists`: the first field with that exact name, or an
      error message naming the column. */
  function ColumnExists(schema: Schema, name: string): (r: Result<Field, string>)
    ensures r.Ok? <==> exists i :: 0 <= i < |schema.fields| && schema.fields[i].name == name
    ensures r.Ok? ==> r.value.name == name
    ensures r.Ok? ==> exists i :: 0 <= i < |schema.fields| && schema.fields[i] == r.value
                                 && forall j :: 0 <= j < i ==> schema.fields[j].name != name
    ensures r.Err? ==> r.error == ColumnNotFound(name)
  {
    match FirstFieldNamed(schema.fields, name)
    case None => Err(ColumnNotFound(name))
    case Some(i) => Ok(schema.fields[i])
  }

  /** Every column has the length of column 0 (true of no columns at all). */
  predicate Uniform(columns: seq<ColumnVector>)
  {
    forall i :: 0 <= i < |columns| ==> |columns[i].values| == |columns[0].values|
  }

  /** The shape invariant of a constructed batch. */
  predicate WellFormed(batch: RecordBatch)
  {
    |batch.columns| == |batch.schema.fields| && Uniform(batch.columns)
  }

  /** `e` reports the smallest column index whose length differs from column 0. */
  predicate IsFirstLengthMismatch(columns: seq<ColumnVector>, e: QueryError)
  {
    && e.ColumnLengthMismatch?
    && e.columnIndex < |columns|
    && e.expectedLength == |columns[0].values|
    && e.actualLength == |columns[e.columnIndex].values|
    && e.actualLength != e.expectedLength
    && forall j :: 0 <= j < e.columnIndex ==> |columns[j].values| == e.expectedLength
  }

  /** At most one error fits `IsFirstLengthMismatch`. */
  lemma FirstLengthMismatchUnique(columns: seq<ColumnVector>, e1: QueryError, e2: QueryError)
    requires IsFirstLengthMismatch(columns, e1) && IsFirstLengthMismatch(columns, e2)
    ensures e1 == e2
  {
  }

  /** `RecordBatch::new`: the count check first, then a scan that stops at
      the first column whose length differs from column 0's. Value tags are
      not compared with the field types. */
  method NewRecordBatch(schema: Schema, columns: seq<ColumnVector>) returns (r: Result<RecordBatch, QueryError>)
    ensures |schema.fields| != |columns| ==> r == Err(SchemaCountMismatch(|schema.fields|, |columns|))
    ensures |schema.fields| == |columns| && Uniform(columns) ==> r == Ok(RecordBatch(schema, columns))
    ensures |schema.fields| == |columns| && !Uniform(columns) ==> r.Err? && IsFirstLengthMismatch(columns, r.error)
    ensures r.Ok? ==> WellFormed(r.value)
  {
    if |schema.fields| != |columns| {
      return Err(SchemaCountMismatch(|schema.fields|, |columns|));
    }
    if |columns| != 0 {
      var height := |columns[0].values|;
      for index := 0 to |columns|
        invariant forall j :: 0 <= j < index ==> |columns[j].values| == height
      {
        if |columns[index].values| != height {
          return Err(ColumnLengthMismatch(index, height, |columns[index].values|));
        }
      }
    }
    return Ok(RecordBatch(schema, columns));
  }
}
