/**
 * Values shared by the replication engine's components: failure-compatible
 * wrappers for the exceptions the Python code raises, the scalar values a
 * source row or a cursor descriptor holds, and the Arrow schema and batch
 * shapes that travel from the source reader to the destination writer.
 */
module Types {

  datatype Option<+T> = None | Some(value: T) {
    /** The wrapped value, or `default` when there is none (Python's `dict.get`). */
    function GetOr(default: T): T {
      match this
      case Some(v) => v
      case None => default
    }
  }

  datatype Result<+T, +E> = Success(value: T) | Failure(error: E)

  /** The exceptions of the core that callers can observe. */
  datatype Error =
    | ValueError(message: string)
    | TypeError(message: string)
      /** A statement sent to the source database raised. */
    | DatabaseError

  /**
   * A scalar as the database driver and the JSON configuration hand it over:
   * SQL NULL / JSON null, a string, or an integer.
   */
  datatype SqlValue = Null | Str(s: string) | Int(i: int)

  /** A fetched source row, in the column order of the extraction query. */
  type Row = seq<SqlValue>

  /**
   * An Arrow data type: either one obtained by name from the `pyarrow`
   * module with no arguments (`string`, `int64`, `bool`, ...) or a
   * 128-bit decimal with a precision and a scale.
   */
  datatype ArrowType = ArrowNamed(name: string) | Decimal128(precision: int, scale: int)

  const StringType: ArrowType := ArrowNamed("string")

  datatype ArrowField = ArrowField(name: string, arrowType: ArrowType)

  type Schema = seq<ArrowField>

  /** A `pyarrow.Table` built from one chunk of fetched rows. */
  datatype Batch = Batch(schema: Schema, rows: seq<Row>)
}
