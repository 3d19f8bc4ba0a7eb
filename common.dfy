/** Small value types shared by every component of the task store. */
module Common {

  /** A value that may be absent: a storage key that was never written, a `find` that matched nothing. */
  datatype Option<+T> = None | Some(value: T)

  /** The outcome of an operation that can be refused with a message. */
  datatype Result<+T> = Success(value: T) | Failure(message: string)

  /** A transient notification shown to the user; `destructive` is the red error variant. */
  datatype Toast = Toast(title: string, description: string, destructive: bool)
}
