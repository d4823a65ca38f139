/** The exceptions the interpreter core can raise, a result type that
    carries either a value or the exception, and nullable references. */
module Faults {

  datatype Fault =
    | InternalError          // "Can't execute instruction" from Step
    | NullPointer            // a null reference dereferenced
    | IllegalArgument        // nextInt with a bound that is not positive
    | Arithmetic             // integer remainder by zero
    | NumberFormat           // Integer.parseInt on a malformed number
    | NotAName               // RuntimeException: a list token that is not a name
    | UnknownInstruction(name: string) // RuntimeException: a name without a generator

  datatype Result<T> = Ok(value: T) | Err(fault: Fault)

  /** A Java reference that may be null. */
  datatype Option<T> = None | Some(value: T)
}
