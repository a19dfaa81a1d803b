/** The source side as the loader sees it through JDBC: the column type codes
    of java.sql.Types, the result-set metadata, and one field of a row given as
    what each typed getter returns for it. */
module Jdbc {
  import opened Wrappers
  import opened YdbTypes

  // java.sql.Types codes referred to by the loader
  const CHAR: int := 1
  const NUMERIC: int := 2
  const DECIMAL: int := 3
  const INTEGER: int := 4
  const SMALLINT: int := 5
  const FLOAT: int := 6
  const REAL: int := 7
  const DOUBLE: int := 8
  const VARCHAR: int := 12
  const BIGINT: int := -5
  const NCHAR: int := -15
  const NVARCHAR: int := -9
  const DATE: int := 91
  const TIMESTAMP: int := 93
  const BLOB: int := 2004

  /** java.sql.Timestamp: its Instant, its epoch milliseconds (getTime) and its
      date in the default time zone (toLocalDateTime().toLocalDate()). */
  datatype SqlTimestamp = SqlTimestamp(instant: int, epochMillis: Int64, localDate: LocalDate)

  /** One field of the current row. SqlNull is what getObject reports as null.
      A present field carries the result of each typed getter; None where that
      getter throws for this field. The stream getters that a blob column is
      read with are functions of the load task's settings. */
  datatype Field =
    | SqlNull
    | Present(
        text: string,                        // getString
        asBoolean: Option<bool>,             // getBoolean
        asInt: Option<Int32>,                // getInt
        asLong: Option<Int64>,               // getLong
        asFloat: Option<FloatBits>,          // getFloat
        asDouble: Option<FloatBits>,         // getDouble
        asBigDecimal: Option<DecimalInput>,  // getBigDecimal
        asDate: Option<LocalDate>,           // getDate().toLocalDate()
        asTimestamp: Option<SqlTimestamp>,   // getTimestamp
        asBytes: Option<seq<byte>>)          // getBytes

  /** ResultSetMetaData for one column: getColumnName and getColumnType. */
  datatype ColumnMeta = ColumnMeta(name: string, sqlType: int)

  /** An executed query: its column metadata and its rows, in cursor order.
      Columns are numbered from 1, as JDBC does. */
  datatype ResultSet = ResultSet(columns: seq<ColumnMeta>, rows: seq<seq<Field>>) {
    predicate WellFormed() {
      forall i :: 0 <= i < |rows| ==> |rows[i]| == |columns|
    }
  }
}
