/** Failure-carrying results shared by every module of the model.
    Rust's `io::Result<T>` / `eyre::Result<T>` become `Result<T>`, and
    `io::Result<()>` becomes `Outcome`. A Rust panic (`expect`, `unwrap`)
    is kept apart from an ordinary error as `Error.Panic`. */
module Wrappers {

  datatype Option<+T> = None | Some(value: T)

  /** An error value: an ordinary returned error, or a panic that aborts the process. */
  datatype Error = Failure(msg: string) | Panic(msg: string)

  datatype Result<+T> = Ok(value: T) | Err(error: Error)

  datatype Outcome = Pass | Fail(error: Error)
}
