/** The columnar sink: the table a chunk of records becomes, the schema that table
    carries, and the Parquet writer, which is opened once with the first table's
    schema, refuses any table whose schema differs, appends tables in order and
    is finally closed. */
module Parquet {
  import opened Xml
  import opened Changeset

  /** The type pyarrow infers for a column of Python strings and Nones: string when
      at least one value is a string, null when every value is None. */
  datatype ColumnType = StringType | NullType

  datatype Field = Field(name: string, kind: ColumnType)

  type Schema = seq<Field>

  /** The inferred type of column `i` of a chunk. */
  function ColumnTypeOf(chunk: seq<Record>, i: nat): (t: ColumnType)
    requires i < |COLUMNS|
    ensures t == StringType <==> exists k :: 0 <= k < |chunk| && Row(chunk[k])[i].Some?
  {
    if chunk == [] then NullType
    else if Row(chunk[0])[i].Some? then StringType
    else
      var t := ColumnTypeOf(chunk[1..], i);
      assert forall k :: 1 <= k < |chunk| ==> chunk[k] == chunk[1..][k - 1];
      t
  }

  /** The schema of the table built from a chunk: one field per record key, in key
      order, typed by inference. A table built from no records has no columns. */
  function SchemaOf(chunk: seq<Record>): (s: Schema)
    ensures chunk == [] ==> s == []
    ensures chunk != [] ==> |s| == |COLUMNS|
    ensures forall i :: 0 <= i < |s| ==> s[i].name == COLUMNS[i]
    ensures forall i :: 0 <= i < |s| ==>
      (s[i].kind == StringType <==> exists k :: 0 <= k < |chunk| && Row(chunk[k])[i].Some?)
  {
    if chunk == [] then []
    else seq(|COLUMNS|, i requires 0 <= i < |COLUMNS| => Field(COLUMNS[i], ColumnTypeOf(chunk, i)))
  }

  /** The state of the source's `writer` variable together with the file behind it:
      `schema` is None while no writer exists, and afterwards the schema it was
      created with; `batches` are the tables written so far, in order. */
  class Writer {
    var schema: Option<Schema>
    var closed: bool
    var batches: seq<seq<Record>>

    /** Nothing is written or closed before the writer exists, and every table
        written matches the schema the writer was created with. */
    ghost predicate Valid()
      reads this
    {
      (schema.None? ==> batches == [] && !closed) &&
      forall k :: 0 <= k < |batches| ==> schema == Some(SchemaOf(batches[k]))
    }

    /** `writer = None`. */
    constructor ()
      ensures Valid() && schema == None && !closed && batches == []
    {
      schema, closed, batches := None, false, [];
    }

    /** `pq.ParquetWriter(output_file, schema)`: creates the file for that schema. */
    method Open(s: Schema)
      requires Valid() && schema.None?
      modifies this
      ensures Valid() && schema == Some(s) && !closed && batches == []
    {
      schema := Some(s);
    }

    /** `writer.write_table(table)`: appends the table when its schema equals the
        writer's, and otherwise raises (ok is false) and writes nothing. */
    method WriteTable(chunk: seq<Record>) returns (ok: bool)
      requires Valid() && schema.Some? && !closed
      modifies this
      ensures Valid() && schema == old(schema) && !closed
      ensures ok <==> SchemaOf(chunk) == schema.value
      ensures batches == if ok then old(batches) + [chunk] else old(batches)
    {
      ok := SchemaOf(chunk) == schema.value;
      if ok {
        batches := batches + [chunk];
      }
    }

    /** `writer.close()`: finalises the file; the writer takes no tables afterwards. */
    method Close()
      requires Valid() && schema.Some? && !closed
      modifies this
      ensures Valid() && closed && schema == old(schema) && batches == old(batches)
    {
      closed := true;
    }
  }
}
