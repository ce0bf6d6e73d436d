/** Optional values and results with a typed error, used where the program returns null or throws. */
module Wrappers {

  datatype Option<+T> = None | Some(value: T)

  datatype Result<+T, +E> = Ok(value: T) | Err(error: E)

  /** When a single-statement store call fails for a reason outside the tables: not at all, before its
      write, or after the write took effect. */
  datatype Fault = NoFault | BeforeWrite | AfterWrite
}
