/** Values shared by the dashboard's modules: optional cells, results, and
    the Python exceptions the core raises. */
module Common {

  /** A cell that may be missing (pandas NaN / None). */
  datatype Option<+T> = None | Some(value: T)

  /** The outcome of an operation that may raise. */
  datatype Result<+R, +E> = Success(value: R) | Failure(error: E)

  /** The exceptions raised by the core:
      KeyError names the missing columns;
      while the stats table has not been loaded (`self.stats` is still
      None), reading an attribute of it raises AttributeError and
      subscripting it raises TypeError;
      ValueError names a column that `reset_index` was asked to insert
      into a frame that already has a column of that name. */
  datatype Error = KeyError(columns: seq<string>) | AttributeError | TypeError | ValueError(column: string)
}
