/** Failure-compatible result types shared by every module of the model. */
module Wrappers {

  datatype Option<+T> = None | Some(value: T)

  /** The exceptions the modelled code raises or runs into. */
  datatype Error =
      /** PHP's \InvalidArgumentException, with its message. */
    | InvalidArgument(message: string)
      /** A method called on NULL (a PHP fatal error). */
    | NullDereference(what: string)
      /** The schema API refusing to add a field to a table that does not exist. */
    | SchemaObjectDoesNotExist(table: string)
      /** The schema API refusing to add an index whose name is taken. */
    | SchemaObjectExists(table: string, name: string)

  datatype Result<+T> = Ok(value: T) | Err(error: Error)

  /** The outcome of an operation that returns nothing but may throw. */
  datatype Outcome = Pass | Fail(error: Error)
}
