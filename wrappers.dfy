/** Failure-compatible values shared by every module: Java's nullable references
    and Java's exceptions, made explicit. */
module Wrappers {

  /** A nullable Java reference: `None` stands for `null`. */
  datatype Option<+T> = None | Some(value: T)

  /** A Java exception, by the class the source catches it as. */
  datatype Failure =
    | IOException(message: string)
    | MessagingException(message: string)
      /** An unchecked exception that no handler of the core catches. */
    | RuntimeException(className: string)

  /** The outcome of a Java call: a value, or the exception it threw. */
  datatype Result<+T> = Ok(value: T) | Err(failure: Failure)

  /** String conversion as string concatenation and `%s` do it: a null reference reads "null". */
  function Render(o: Option<string>): string
  {
    match o
    case Some(s) => s
    case None => "null"
  }
}
