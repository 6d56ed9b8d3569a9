/**
 * What the scalar types share: the JDBC type codes of java.sql.Types and of ebean's
 * DbType extension, and the one call a `bind` makes on its DataBind.
 */
module ScalarCommon {

  // java.sql.Types
  const BIT: int := -7
  const TINYINT: int := -6
  const SMALLINT: int := 5
  const INTEGER: int := 4
  const BIGINT: int := -5
  const FLOAT: int := 6
  const REAL: int := 7
  const DOUBLE: int := 8
  const NUMERIC: int := 2
  const DECIMAL: int := 3
  const CHAR: int := 1
  const VARCHAR: int := 12
  const LONGVARCHAR: int := -1
  const DATE: int := 91
  const TIME: int := 92
  const TIMESTAMP: int := 93
  const BINARY: int := -2
  const VARBINARY: int := -3
  const LONGVARBINARY: int := -4
  const BLOB: int := 2004
  const CLOB: int := 2005
  const BOOLEAN: int := 16

  // com.avaje.ebean.config.dbplatform.DbType extensions
  const HSTORE: int := 5000
  const JSON: int := 5001
  const JSONB: int := 5002
  const UUID: int := 5010

  /** The DataBind setter a non-null bind uses. */
  datatype Setter = SetInt | SetShort | SetByte | SetString | SetLong | SetObject | SetBytes

  /** The single call `bind` makes: setNull with a type code, or a setter with a value. */
  datatype BindCall<T> = SetNull(sqlType: int) | Set(setter: Setter, value: T)
}
