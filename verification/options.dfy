/** A value that may be absent: a missing cell of a table (pandas NaN), or a
    statistic that is undefined because its group has no observed values. */
module Options {

  datatype Option<+T> = None | Some(value: T)
}
