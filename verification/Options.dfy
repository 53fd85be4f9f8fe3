/** Values that may be absent, and computations that may throw. */
module Options {
  /** `T | null` */
  datatype Option<+T> = None | Some(value: T)

  /** A returned value, or the message of the error thrown instead. */
  datatype Reading<+T> = Read(value: T) | Unreadable(message: string)
}
