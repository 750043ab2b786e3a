/** The two failure shapes of the TypeScript source: nullable values and thrown errors. */
module Wrappers {

  /** `T | null`: None stands for JavaScript's `null`. */
  datatype Option<+T> = None | Some(value: T)

  /** The outcome of a call that either returns a value or throws an `Error` with a message. */
  datatype Result<+T> = Returns(value: T) | Throws(message: string)
}
