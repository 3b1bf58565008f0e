/** Failure-carrying values shared by the header codec and the merger.
    Each Python exception the modelled code raises becomes an `Error`. */
module Results {

  /** The exceptions raised by the modelled code, with their messages. */
  datatype Error =
    | ValueError(message: string)
    | Warning(message: string)
    | IndexError
    | TypeError(message: string)
      /** What `DataFrame.to_sql` raises when its connection is `None`; its
          type and message depend on the pandas version, so none is given. */
    | NoEngine

  /** Python's `None` versus a present value. */
  datatype Option<+T> = None | Some(value: T)

  /** A computed value, or the exception that replaced it. */
  datatype Result<+T> = Ok(value: T) | Err(error: Error)

  /** A statement that either completes or raises. */
  datatype Outcome = Pass | Fail(error: Error)
}
