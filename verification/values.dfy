/** Column values as Spark SQL sees them: every column of a JSON-inferred
    DataFrame is nullable, and the comparison operators follow SQL's
    three-valued logic. Also the run's error outcome. */
module Values {

  /** A column value that may be NULL (a field absent from the JSON object,
      or an explicit JSON null). */
  datatype Nullable<+T> = Null | NonNull(value: T)

  /** `a == b` on two columns as a filter or join condition sees it: the
      comparison is NULL when either side is NULL, and a condition keeps a
      row only when it is TRUE. So NULL matches nothing, not even NULL. */
  predicate SqlEquals<T(==)>(a: Nullable<T>, b: Nullable<T>)
    ensures SqlEquals(a, b) <==> a == b && a != Null
  {
    a.NonNull? && b.NonNull? && a.value == b.value
  }

  /** Why a log-processing run aborts. The timestamp UDF hands `ts / 1000`
      to Python's `datetime.fromtimestamp`: on a NULL `ts` the division
      raises, and on a `ts` outside the calendar's range the conversion
      raises; either way the job fails. */
  datatype EtlError = NullTimestamp | TimestampOutOfRange

  datatype Result<+T> = Ok(value: T) | Err(error: EtlError)
}
