/** The table descriptions the loader passes around: the source columns of a
    table, its target table definition(s), and the per-table decision record
    whose failure flag the stages set. */
module Tables {
  import opened Wrappers
  import opened YdbTypes

  /** A source column: its name, its declared java.sql.Types code, and whether
      a blob value is read as a Blob object rather than as a binary stream. */
  datatype ColumnInfo = ColumnInfo(name: string, sqlType: int, blobAsObject: bool)

  /** The resolved metadata of a source table: its columns and its SELECT text. */
  datatype TableMetadata = TableMetadata(columns: seq<ColumnInfo>, basicSql: string)

  /** findColumn: the first column with the given name, or none. */
  function FindColumn(md: TableMetadata, name: string): (r: Option<ColumnInfo>)
    ensures r.Some? ==> r.value in md.columns && r.value.name == name
    ensures r.None? <==> forall c :: c in md.columns ==> c.name != name
  {
    FindIn(md.columns, name)
  }

  function FindIn(columns: seq<ColumnInfo>, name: string): (r: Option<ColumnInfo>)
    ensures r.Some? ==> r.value in columns && r.value.name == name
    ensures r.None? <==> forall c :: c in columns ==> c.name != name
  {
    if columns == [] then None
    else if columns[0].name == name then Some(columns[0])
    else FindIn(columns[1..], name)
  }

  /** A target table: its full name, its member struct (replaced when an existing
      table's structure is adopted), the position of the synthetic key member if
      it has one, and the source table it belongs to. */
  class TargetTable {
    const fullName: string
    var fields: StructType
    const synthKeyPos: Option<int>
    const original: TableDecision

    constructor (fullName: string, fields: StructType, synthKeyPos: Option<int>, original: TableDecision)
      ensures this.fullName == fullName && this.fields == fields
      ensures this.synthKeyPos == synthKeyPos && this.original == original
    {
      this.fullName := fullName;
      this.fields := fields;
      this.synthKeyPos := synthKeyPos;
      this.original := original;
    }
  }

  /** One source table's load unit. */
  class TableDecision {
    const schema: string
    const table: string
    var valid: bool
    var failure: bool
    var metadata: TableMetadata
    var target: TargetTable?
    /** blob column name -> auxiliary target table */
    var blobTargets: map<string, TargetTable>

    constructor (schema: string, table: string)
      ensures this.schema == schema && this.table == table
      ensures !valid && !failure && target == null && blobTargets == map[]
    {
      this.schema := schema;
      this.table := table;
      valid := false;
      failure := false;
      metadata := TableMetadata([], "");
      target := null;
      blobTargets := map[];
    }
  }
}
